/** The fixed-window rate limiter: the middleware over Redis, and how much it can let through. Times are in
    milliseconds, as Redis keeps them. */
module RateLimit {
  import opened Wrappers
  import opened Sequences
  import opened Counters

  const SECOND: nat := 1000

  /** Retry-After is in seconds. */
  datatype Reply = Pass | TooMany(retryAfter: nat)

  datatype Request = Request(key: string, at: nat, fault: Fault)

  /** Fail open: an error of the store lets the request pass. */
  function Judge(db: Db, r: Request, limit: int, window: nat): Reply {
    if !r.fault.Fine? || Bump(Seen(db, r.key, r.at), r.at, window).value <= limit then Pass else TooMany(window / SECOND)
  }

  function After(db: Db, r: Request, window: nat): Db {
    if r.fault.Lost? then db else Incr(db, r.key, r.at, window)
  }

  /** The Redis key of a client in a group of routes, as a Limiter uses it. */
  function KeyOf(name: string, ip: string): string { "rl:" + name + ":" + ip }

  class Limiter {
    const client: Redis
    const name: string
    const limit: int
    const window: nat

    constructor (client: Redis, name: string, limit: int, window: nat)
      ensures this.client == client && this.name == name && this.limit == limit && this.window == window
    {
      this.client, this.name, this.limit, this.window := client, name, limit, window;
    }

    function Key(ip: string): string { KeyOf(name, ip) }

    method Handle(ip: string, now: nat, fault: Fault) returns (reply: Reply)
      modifies client
      ensures client.db == After(old(client.db), Request(Key(ip), now, fault), window)
      ensures reply == Judge(old(client.db), Request(Key(ip), now, fault), limit, window)
    {
      var n := client.TxIncr(Key(ip), now, window, fault);
      if n.Failure? { return Pass; }
      if n.value > limit { return TooMany(window / SECOND); }
      return Pass;
    }
  }

  // ---- Counting over a trace ----

  function Admits(db: Db, r: Request, key: string, limit: int, window: nat, a: nat, b: nat): nat {
    if r.key == key && a <= r.at < b && Judge(db, r, limit, window) == Pass then 1 else 0
  }

  /** How many requests on `key` in [a, b) are let through. */
  function Admitted(db: Db, trace: seq<Request>, key: string, limit: int, window: nat, a: nat, b: nat): nat
    decreases |trace|
  {
    if trace == [] then 0
    else Admits(db, trace[0], key, limit, window, a, b) + Admitted(After(db, trace[0], window), trace[1..], key, limit, window, a, b)
  }

  /** How many of them met a failing store. */
  function Faults(trace: seq<Request>, key: string, a: nat, b: nat): nat {
    if trace == [] then 0
    else (if trace[0].key == key && a <= trace[0].at < b && !trace[0].fault.Fine? then 1 else 0) + Faults(trace[1..], key, a, b)
  }

  predicate InOrder(trace: seq<Request>, from: nat) {
    trace == [] || (from <= trace[0].at && InOrder(trace[1..], trace[0].at))
  }

  function Positive(limit: int): nat { if limit > 0 then limit else 0 }

  /** x / window rounded up; nothing for an empty stretch. */
  function Windows(x: int, window: nat): nat
    requires window >= 1
  {
    if x <= 0 then 0 else (x + window - 1) / window
  }

  lemma WindowsStep(x: int, window: nat)
    requires window >= 1 && x > 0
    ensures Windows(x, window) == 1 + Windows(x - window, window)
  {
    if x > window {
      var y := x - 1;
      assert (x + window - 1) == y + window;
      DivShift(y, window);
      assert x - window + window - 1 == y;
    } else {
      DivShift(x - 1, window);
      assert 0 <= x - 1 < window;
    }
  }

  lemma DivShift(y: nat, d: nat)
    requires d >= 1
    ensures (y + d) / d == y / d + 1
    ensures y < d ==> y / d == 0
  {
    var q, r := y / d, y % d;
    assert y == d * q + r;
    var x := (y + d) / d - (q + 1);
    assert d * x == r - (y + d) % d;
    assert x >= 1 ==> d * x >= d;
    assert x <= -1 ==> d * x <= 0 - d;
  }

  lemma {:induction false} WindowsMonotone(x: int, y: int, window: nat)
    requires window >= 1 && x <= y
    ensures Windows(x, window) <= Windows(y, window)
    decreases if y > 0 then y else 0
  {
    if x > 0 {
      WindowsStep(x, window);
      WindowsStep(y, window);
      WindowsMonotone(x - window, y - window, window);
    }
  }

  /** What can still be let through before `b`: the rest of the current window and a full window for each later start. */
  function Budget(seen: Option<Counter>, now: nat, b: nat, limit: nat, window: nat): nat
    requires window >= 1
  {
    match seen
    case None => limit * Windows(b - now, window)
    case Some(c) => (if c.value <= limit then limit - c.value else 0) + limit * Windows(b - c.expires, window)
  }

  lemma TimesMonotone(limit: nat, m: nat, n: nat)
    requires m <= n
    ensures limit * m <= limit * n
  {
  }

  lemma BudgetShrinks(db: Db, key: string, now: nat, later: nat, b: nat, limit: nat, window: nat)
    requires window >= 1 && now <= later
    ensures Budget(Seen(db, key, later), later, b, limit, window) <= Budget(Seen(db, key, now), now, b, limit, window)
  {
    var start := match Seen(db, key, now) case None => now case Some(c) => c.expires;
    if Seen(db, key, later).None? {
      WindowsMonotone(b - later, b - start, window);
      TimesMonotone(limit, Windows(b - later, window), Windows(b - start, window));
    }
  }

  /** One request spends what it is let through, unless the store failed. */
  lemma RequestSpends(db: Db, r: Request, key: string, limit: int, window: nat, b: nat)
    requires window >= 1 && r.at < b
    ensures Admits(db, r, key, limit, window, 0, b)
            + Budget(Seen(After(db, r, window), key, r.at), r.at, b, Positive(limit), window)
         <= Budget(Seen(db, key, r.at), r.at, b, Positive(limit), window)
            + if r.key == key && !r.fault.Fine? then 1 else 0
  {
    var L := Positive(limit);
    if r.key == key && !r.fault.Lost? && Seen(db, key, r.at).None? {
      WindowsStep(b - r.at, window);
      var k := Windows(b - r.at - window, window);
      assert L * (1 + k) == L + L * k;
      assert b - (r.at + window) == b - r.at - window;
    }
  }

  lemma {:induction false} NothingAfter(db: Db, trace: seq<Request>, key: string, limit: int, window: nat, a: nat, b: nat)
    requires InOrder(trace, b)
    ensures Admitted(db, trace, key, limit, window, a, b) == 0
    decreases |trace|
  {
    if trace != [] {
      InOrderFrom(trace[1..], b, trace[0].at);
      NothingAfter(After(db, trace[0], window), trace[1..], key, limit, window, a, b);
    }
  }

  lemma InOrderFrom(trace: seq<Request>, from: nat, later: nat)
    requires InOrder(trace, later) && from <= later
    ensures InOrder(trace, from)
  {
  }

  /** From any state on, the budget bounds what passes before `b`. */
  lemma {:induction false} BudgetBounds(db: Db, trace: seq<Request>, key: string, limit: int, window: nat, now: nat, a: nat, b: nat)
    requires window >= 1 && InOrder(trace, now) && a <= now
    ensures Admitted(db, trace, key, limit, window, a, b)
         <= Faults(trace, key, a, b) + Budget(Seen(db, key, now), now, b, Positive(limit), window)
    decreases |trace|
  {
    if trace != [] {
      var r := trace[0];
      BudgetShrinks(db, key, now, r.at, b, Positive(limit), window);
      if r.at >= b {
        InOrderFrom(trace, b, r.at);
        NothingAfter(db, trace, key, limit, window, a, b);
      } else {
        RequestSpends(db, r, key, limit, window, b);
        BudgetBounds(After(db, r, window), trace[1..], key, limit, window, r.at, a, b);
      }
    }
  }

  ghost predicate Counting(db: Db) {
    forall k :: k in db ==> db[k].value >= 1
  }

  function Max(m: nat, n: nat): nat { if m < n then n else m }

  /** The most that `limit` per `window` lets through in a stretch of `length`: full windows only, or one window that began
      before the stretch and spent one request there, and full windows after it. */
  function Bound(limit: nat, window: nat, length: nat): nat
    requires window >= 1
  {
    if limit == 0 || length == 0 then 0
    else Max(limit * Windows(length, window), limit - 1 + limit * Windows(length - 1, window))
  }

  lemma BudgetAtStart(db: Db, key: string, a: nat, b: nat, limit: nat, window: nat)
    requires window >= 1 && a < b && Counting(db)
    ensures Budget(Seen(db, key, a), a, b, limit, window) <= Bound(limit, window, b - a)
  {
    match Seen(db, key, a)
    case None => if limit == 0 { assert limit * Windows(b - a, window) == 0; }
    case Some(c) =>
      WindowsMonotone(b - c.expires, b - a - 1, window);
      TimesMonotone(limit, Windows(b - c.expires, window), Windows(b - a - 1, window));
      if limit == 0 { assert limit * Windows(b - c.expires, window) == 0; }
  }

  lemma {:induction false} StretchBound(db: Db, trace: seq<Request>, key: string, limit: int, window: nat, from: nat, a: nat, b: nat)
    requires window >= 1 && InOrder(trace, from) && a <= b && Counting(db)
    ensures Admitted(db, trace, key, limit, window, a, b) <= Faults(trace, key, a, b) + Bound(Positive(limit), window, b - a)
    decreases |trace|
  {
    if trace != [] {
      if trace[0].at < a {
        StretchBound(After(db, trace[0], window), trace[1..], key, limit, window, trace[0].at, a, b);
      } else {
        InOrderFrom(trace, a, trace[0].at);
        if a == b {
          NothingAfter(db, trace, key, limit, window, a, b);
        } else {
          BudgetBounds(db, trace, key, limit, window, a, a, b);
          BudgetAtStart(db, key, a, b, Positive(limit), window);
        }
      }
    }
  }

  lemma BoundIsBelow(limit: nat, window: nat, length: nat)
    requires window >= 1 && limit >= 1
    ensures Bound(limit, window, length) <= limit * (Windows(length, window) + 1) - 1
  {
    var k := Windows(length, window);
    assert limit * (k + 1) == limit * k + limit;
    if length > 0 {
      WindowsMonotone(length - 1, length, window);
      TimesMonotone(limit, Windows(length - 1, window), k);
    }
  }

  /** For every trace and every stretch [a, b): what passes on one key is at most Bound, plus the requests that met a failing
      store; so less than limit * (ceil((b - a) / window) + 1). */
  lemma AdmissionBound(trace: seq<Request>, key: string, limit: int, window: nat, a: nat, b: nat)
    requires window >= 1 && InOrder(trace, 0) && a <= b
    ensures Admitted(map[], trace, key, limit, window, a, b) <= Faults(trace, key, a, b) + Bound(Positive(limit), window, b - a)
    ensures limit >= 1 ==>
      Admitted(map[], trace, key, limit, window, a, b) <= Faults(trace, key, a, b) + limit * (Windows(b - a, window) + 1) - 1
  {
    StretchBound(map[], trace, key, limit, window, 0, a, b);
    if limit >= 1 { BoundIsBelow(limit, window, b - a); }
  }

  /** In particular, never twice the limit in a stretch of one window. */
  lemma TwoWindowsAtMost(trace: seq<Request>, key: string, limit: nat, window: nat, a: nat)
    requires window >= 1 && limit >= 1 && InOrder(trace, 0) && Faults(trace, key, a, a + window) == 0
    ensures Admitted(map[], trace, key, limit, window, a, a + window) <= 2 * limit - 1
  {
    AdmissionBound(trace, key, limit, window, a, a + window);
    WindowsStep(window, window);
    assert Windows(window, window) == 1;
  }

  // ---- The bound is reached ----

  function Burst(key: string, at: nat, n: nat): seq<Request> {
    seq(n, _ => Request(key, at, Fine))
  }

  lemma BurstHead(key: string, at: nat, n: nat, rest: seq<Request>)
    requires n > 0
    ensures var trace := Burst(key, at, n) + rest;
            trace != [] && trace[0] == Request(key, at, Fine) && trace[1..] == Burst(key, at, n - 1) + rest
  {
  }

  lemma {:induction false} BurstPasses(db: Db, key: string, at: nat, n: nat, rest: seq<Request>, limit: nat, window: nat, a: nat, b: nat)
    requires window >= 1 && key in db && at < db[key].expires && db[key].value + n <= limit && a <= at < b
    ensures Admitted(db, Burst(key, at, n) + rest, key, limit, window, a, b)
         == n + Admitted(db[key := Counter(db[key].value + n, db[key].expires)], rest, key, limit, window, a, b)
    decreases n
  {
    var trace := Burst(key, at, n) + rest;
    if n == 0 {
      assert trace == rest;
      assert db[key := Counter(db[key].value + 0, db[key].expires)] == db;
    } else {
      BurstHead(key, at, n, rest);
      var next := After(db, trace[0], window);
      BurstPasses(next, key, at, n - 1, rest, limit, window, a, b);
      assert next[key := Counter(db[key].value + n, db[key].expires)] == db[key := Counter(db[key].value + n, db[key].expires)];
    }
  }

  /** A burst that opens its window. */
  lemma FreshBurstPasses(db: Db, key: string, at: nat, n: nat, rest: seq<Request>, limit: nat, window: nat, a: nat, b: nat)
    requires window >= 1 && Seen(db, key, at) == None && 1 <= n <= limit && a <= at < b
    ensures Admitted(db, Burst(key, at, n) + rest, key, limit, window, a, b)
         == n + Admitted(db[key := Counter(n, at + window)], rest, key, limit, window, a, b)
  {
    BurstHead(key, at, n, rest);
    var next := After(db, Request(key, at, Fine), window);
    assert next == db[key := Counter(1, at + window)];
    BurstPasses(next, key, at, n - 1, rest, limit, window, a, b);
    assert next[key := Counter(n, at + window)] == db[key := Counter(n, at + window)];
  }

  /** A full limit at the start of each of `k` windows in a row. */
  function Train(key: string, start: nat, k: nat, limit: nat, window: nat): seq<Request>
    decreases k
  {
    if k == 0 then [] else Burst(key, start, limit) + Train(key, start + window, k - 1, limit, window)
  }

  lemma TimesStep(limit: nat, k: nat)
    requires k > 0
    ensures limit * k == limit + limit * (k - 1)
  {
  }

  lemma {:induction false} TrainPasses(db: Db, key: string, start: nat, k: nat, limit: nat, window: nat, a: nat, b: nat)
    requires limit >= 1 && window >= 1 && Seen(db, key, start) == None && a <= start && k <= Windows(b - start, window)
    ensures Admitted(db, Train(key, start, k, limit, window), key, limit, window, a, b) == limit * k
    decreases k
  {
    if k > 0 {
      var rest := Train(key, start + window, k - 1, limit, window);
      WindowsStep(b - start, window);
      assert b - start - window == b - (start + window);
      FreshBurstPasses(db, key, start, limit, rest, limit, window, a, b);
      TrainPasses(db[key := Counter(limit, start + window)], key, start + window, k - 1, limit, window, a, b);
      TimesStep(limit, k);
    } else {
      assert limit * k == 0;
    }
  }

  /** Only requests on `key` and a store that answers. */
  predicate Healthy(trace: seq<Request>, key: string) {
    forall i :: 0 <= i < |trace| ==> trace[i].key == key && trace[i].fault.Fine?
  }

  lemma {:induction false} BurstInOrder(key: string, at: nat, n: nat, rest: seq<Request>, from: nat)
    requires from <= at && InOrder(rest, at) && Healthy(rest, key)
    ensures InOrder(Burst(key, at, n) + rest, from) && Healthy(Burst(key, at, n) + rest, key)
    decreases n
  {
    var trace := Burst(key, at, n) + rest;
    if n == 0 {
      assert trace == rest;
      InOrderFrom(rest, from, at);
    } else {
      assert trace[0] == Request(key, at, Fine) && trace[1..] == Burst(key, at, n - 1) + rest;
      BurstInOrder(key, at, n - 1, rest, at);
    }
  }

  lemma {:induction false} TrainInOrder(key: string, start: nat, k: nat, limit: nat, window: nat)
    ensures InOrder(Train(key, start, k, limit, window), start) && Healthy(Train(key, start, k, limit, window), key)
    decreases k
  {
    if k > 0 {
      var rest := Train(key, start + window, k - 1, limit, window);
      TrainInOrder(key, start + window, k - 1, limit, window);
      InOrderFrom(rest, start, start + window);
      BurstInOrder(key, start, limit, rest, start);
    }
  }

  /** One request opens a window, the rest of the limit comes at its last moment, and a full limit at the start of each of
      the next `k` windows. */
  function Straddle(key: string, k: nat, limit: nat, window: nat): seq<Request>
    requires limit >= 1 && window >= 2
  {
    Burst(key, 0, 1) + (Burst(key, window - 1, limit - 1) + Train(key, window, k, limit, window))
  }

  lemma StraddlePasses(key: string, k: nat, limit: nat, window: nat, b: nat)
    requires limit >= 1 && window >= 2 && window <= b && k <= Windows(b - window, window)
    ensures Admitted(map[], Straddle(key, k, limit, window), key, limit, window, window - 1, b) == limit - 1 + limit * k
  {
    var train := Train(key, window, k, limit, window);
    var trace := Straddle(key, k, limit, window);
    var db: Db := map[key := Counter(1, window)];
    var late := Burst(key, window - 1, limit - 1) + train;
    assert trace[0] == Request(key, 0, Fine) && trace[1..] == late;
    assert After(map[], trace[0], window) == db;
    BurstPasses(db, key, window - 1, limit - 1, train, limit, window, window - 1, b);
    TrainPasses(db[key := Counter(limit, window)], key, window, k, limit, window, window - 1, b);
  }

  lemma StraddleInOrder(key: string, k: nat, limit: nat, window: nat)
    requires limit >= 1 && window >= 2
    ensures InOrder(Straddle(key, k, limit, window), 0) && Healthy(Straddle(key, k, limit, window), key)
  {
    var train := Train(key, window, k, limit, window);
    TrainInOrder(key, window, k, limit, window);
    BurstInOrder(key, window - 1, limit - 1, train, window - 1);
    BurstInOrder(key, 0, 1, Burst(key, window - 1, limit - 1) + train, 0);
  }

  /** The bound is exact for every limit, window and length: some trace without faults reaches it. */
  lemma BoundIsReached(key: string, limit: nat, window: nat, length: nat) returns (trace: seq<Request>, a: nat)
    requires limit >= 1 && window >= 1
    ensures InOrder(trace, 0) && Healthy(trace, key)
    ensures Admitted(map[], trace, key, limit, window, a, a + length) == Bound(limit, window, length)
  {
    if length == 0 {
      trace, a := [], 0;
    } else if limit * Windows(length, window) >= limit - 1 + limit * Windows(length - 1, window) {
      trace, a := Train(key, 0, Windows(length, window), limit, window), 0;
      TrainInOrder(key, 0, Windows(length, window), limit, window);
      TrainPasses(map[], key, 0, Windows(length, window), limit, window, 0, length);
    } else {
      if window == 1 { OneTickWindows(limit, length); }
      var k := Windows(length - 1, window);
      trace, a := Straddle(key, k, limit, window), window - 1;
      StraddleInOrder(key, k, limit, window);
      StraddlePasses(key, k, limit, window, a + length);
    }
  }

  /** Windows of one tick cannot be straddled. */
  lemma OneTickWindows(limit: nat, length: nat)
    requires length >= 1
    ensures limit * Windows(length, 1) == limit + limit * Windows(length - 1, 1)
  {
    WindowsStep(length, 1);
    var k := Windows(length - 1, 1);
    assert limit * (1 + k) == limit + limit * k;
  }

  // ---- Retry-After ----

  function RunTrace(db: Db, trace: seq<Request>, window: nat): Db
    decreases |trace|
  {
    if trace == [] then db else RunTrace(After(db, trace[0], window), trace[1..], window)
  }

  lemma {:induction false} WindowsEnd(db: Db, trace: seq<Request>, window: nat, from: nat, until: nat)
    requires InOrder(trace, from) && (forall i :: 0 <= i < |trace| ==> trace[i].at <= until) && from <= until
    requires forall k :: k in db ==> db[k].expires <= from + window
    ensures forall k :: k in RunTrace(db, trace, window) ==> RunTrace(db, trace, window)[k].expires <= until + window
    decreases |trace|
  {
    if trace != [] { WindowsEnd(After(db, trace[0], window), trace[1..], window, trace[0].at, until); }
  }

  /** How many requests of the trace are on `key`. */
  function OnKey(trace: seq<Request>, key: string): nat {
    if trace == [] then 0 else (if trace[0].key == key then 1 else 0) + OnKey(trace[1..], key)
  }

  /** A window that is open at `now`, while any window `db` has is over by then, counts only requests of the trace. */
  lemma {:induction false} NewWindowCounts(db: Db, trace: seq<Request>, key: string, window: nat, n: nat, now: nat)
    requires key in db ==> db[key].expires <= now || db[key].value <= n
    ensures var d := RunTrace(db, trace, window); key in d && now < d[key].expires ==> d[key].value <= n + OnKey(trace, key)
    decreases |trace|
  {
    if trace != [] {
      NewWindowCounts(After(db, trace[0], window), trace[1..], key, window, if trace[0].key == key then n + 1 else n, now);
    }
  }

  /** Retry-After is long enough: whoever was turned away and waits that long meets a window that began after the rejection,
      and is let through if fewer than `limit` requests came on the key meanwhile. */
  lemma RetryAfterSuffices(trace: seq<Request>, r: Request, others: seq<Request>, limit: int, window: nat)
    requires window % SECOND == 0 && InOrder(trace, 0) && forall i :: 0 <= i < |trace| ==> trace[i].at <= r.at
    requires Judge(RunTrace(map[], trace, window), r, limit, window).TooMany?
    requires OnKey(others, r.key) < limit
    ensures var db := After(RunTrace(map[], trace, window), r, window);
            var wait := Judge(RunTrace(map[], trace, window), r, limit, window).retryAfter * SECOND;
            Judge(RunTrace(db, others, window), Request(r.key, r.at + wait, Fine), limit, window) == Pass
  {
    WindowsEnd(map[], trace, window, 0, r.at);
    var db := After(RunTrace(map[], trace, window), r, window);
    NewWindowCounts(db, others, r.key, window, 0, r.at + window);
  }

  lemma {:induction false} BurstCounts(db: Db, key: string, at: nat, n: nat, window: nat)
    requires window >= 1 && key in db && at < db[key].expires
    ensures RunTrace(db, Burst(key, at, n), window) == db[key := Counter(db[key].value + n, db[key].expires)]
    decreases n
  {
    if n == 0 {
      assert db[key := Counter(db[key].value + 0, db[key].expires)] == db;
    } else {
      var trace := Burst(key, at, n);
      assert trace[0] == Request(key, at, Fine) && trace[1..] == Burst(key, at, n - 1);
      var next := After(db, trace[0], window);
      BurstCounts(next, key, at, n - 1, window);
      assert next[key := Counter(db[key].value + n, db[key].expires)] == db[key := Counter(db[key].value + n, db[key].expires)];
    }
  }

  /** And that number is exact: `limit` requests on the key just before the retry get it turned away again. */
  lemma CrowdedRetryIsRejected(db: Db, key: string, at: nat, limit: nat, window: nat)
    requires limit >= 1 && window >= 1 && Seen(db, key, at) == None
    ensures OnKey(Burst(key, at, limit), key) == limit
    ensures Judge(RunTrace(db, Burst(key, at, limit), window), Request(key, at, Fine), limit, window).TooMany?
  {
    BurstOnKey(key, at, limit);
    var trace := Burst(key, at, limit);
    assert trace[0] == Request(key, at, Fine) && trace[1..] == Burst(key, at, limit - 1);
    var next := After(db, trace[0], window);
    assert next == db[key := Counter(1, at + window)];
    BurstCounts(next, key, at, limit - 1, window);
  }

  lemma {:induction false} BurstOnKey(key: string, at: nat, n: nat)
    ensures OnKey(Burst(key, at, n), key) == n
  {
    if n > 0 {
      assert Burst(key, at, n)[1..] == Burst(key, at, n - 1);
      BurstOnKey(key, at, n - 1);
    }
  }

  // ---- What has to be let through ----

  /** Fail open: every request that meets a failing store is let through, whatever the limit and the window's count. */
  lemma {:induction false} FaultsPass(db: Db, trace: seq<Request>, key: string, limit: int, window: nat, a: nat, b: nat)
    ensures Admitted(db, trace, key, limit, window, a, b) >= Faults(trace, key, a, b)
    decreases |trace|
  {
    if trace != [] { FaultsPass(After(db, trace[0], window), trace[1..], key, limit, window, a, b); }
  }

  /** How many increments of `key` the trace applies. */
  function Increments(trace: seq<Request>, key: string): nat {
    if trace == [] then 0 else (if trace[0].key == key && !trace[0].fault.Lost? then 1 else 0) + Increments(trace[1..], key)
  }

  lemma {:induction false} OpenWindowCounts(db: Db, trace: seq<Request>, key: string, window: nat)
    requires key in db && forall i :: 0 <= i < |trace| ==> trace[i].at < db[key].expires
    ensures var d := RunTrace(db, trace, window);
            key in d && d[key] == Counter(db[key].value + Increments(trace, key), db[key].expires)
    decreases |trace|
  {
    if trace != [] {
      assert forall i :: 0 <= i < |trace[1..]| ==> trace[1..][i] == trace[i + 1];
      OpenWindowCounts(After(db, trace[0], window), trace[1..], key, window);
    }
  }

  /** In a window that `opener` opened, a request that the store counts is let through exactly if fewer than `limit` increments
      of its key were applied in that window before it, rejected requests included; a rejected one is told the window's length,
      in whole seconds. The window ends where it was going to end when it opened. */
  lemma WindowAdmitsExactly(db: Db, opener: Request, trace: seq<Request>, r: Request, limit: int, window: nat)
    requires !opener.fault.Lost? && Seen(db, opener.key, opener.at) == None
    requires r.key == opener.key && r.fault.Fine? && r.at < opener.at + window
    requires forall i :: 0 <= i < |trace| ==> trace[i].at < opener.at + window
    ensures var d := RunTrace(After(db, opener, window), trace, window);
            && (Judge(d, r, limit, window) == Pass <==> 1 + Increments(trace, r.key) < limit)
            && (Judge(d, r, limit, window) != Pass ==> Judge(d, r, limit, window) == TooMany(window / 1000))
            && r.key in d && d[r.key].expires == opener.at + window
  {
    OpenWindowCounts(After(db, opener, window), trace, r.key, window);
  }

  /** And the first request of a window is let through exactly if the limit allows any. */
  lemma OpenerAdmitted(db: Db, r: Request, limit: int, window: nat)
    requires r.fault.Fine? && Seen(db, r.key, r.at) == None
    ensures Judge(db, r, limit, window) == if limit >= 1 then Pass else TooMany(window / 1000)
  {
  }

  // ---- Who shares a window ----

  /** Groups, whose names have no colon, and clients never share a window. */
  lemma WindowsSeparate(name: string, ip: string, name': string, ip': string)
    requires NoColon(name) && NoColon(name')
    ensures KeyOf(name, ip) == KeyOf(name', ip') <==> name == name' && ip == ip'
  {
    var k, k' := KeyOf(name, ip), KeyOf(name', ip');
    if k == k' {
      var i, i' := 3 + |name|, 3 + |name'|;
      assert k[i] == ':' && k'[i'] == ':';
      assert forall j :: 3 <= j < i ==> k[j] == name[j - 3] != ':';
      assert forall j :: 3 <= j < i' ==> k'[j] == name'[j - 3] != ':';
      assert i == i';
      assert k[3..i] == name && k'[3..i] == name';
      assert k[i + 1..] == ip && k'[i + 1..] == ip';
    }
  }

  /** A request of another client or group leaves a window as it is. */
  lemma OthersLeaveWindow(db: Db, r: Request, key: string, window: nat)
    requires r.key != key
    ensures var d := After(db, r, window); (key in d <==> key in db) && (key in db ==> key in d && d[key] == db[key])
  {
  }
}
