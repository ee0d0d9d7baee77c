// The per-key request counter behind RateLimitGuard: INCR, with PEXPIRE on the
// first hit only.
module RateLimiter {

  datatype Limit = Limit(maxRequests: int, windowMs: int)

  // A Redis key: its value and when its window began.
  datatype Counter = Counter(count: int, since: int)

  // lapsed: whether a key whose expiry is exactly now is already gone. With
  // Redis down the script does not run.
  datatype Request = Request(key: string, time: int, up: bool, lapsed: bool)

  type Store = map<string, Counter>

  predicate Live(store: Store, limit: Limit, r: Request) {
    && r.key in store
    && var expiry := store[r.key].since + limit.windowMs;
    r.time < expiry || (r.time == expiry && !r.lapsed)
  }

  // The script: the counter after the request.
  function Hit(store: Store, limit: Limit, r: Request): Counter {
    if Live(store, limit, r) then store[r.key].(count := store[r.key].count + 1) else Counter(1, r.time)
  }

  function AfterHit(store: Store, limit: Limit, r: Request): Store {
    if r.up then store[r.key := Hit(store, limit, r)] else store
  }

  // Fail open.
  predicate Admitted(store: Store, limit: Limit, r: Request) {
    r.up ==> Hit(store, limit, r).count <= limit.maxRequests
  }

  // ── Traces ───────────────────────────────────────────────────────────────

  predicate Monotone(trace: seq<Request>) {
    forall i, k :: 0 <= i < k < |trace| ==> trace[i].time <= trace[k].time
  }

  function After(limit: Limit, trace: seq<Request>): Store {
    if trace == [] then map[]
    else AfterHit(After(limit, trace[..|trace| - 1]), limit, trace[|trace| - 1])
  }

  // Requests for `key` admitted by a running Redis at a time in [from, to).
  function AdmittedIn(limit: Limit, trace: seq<Request>, key: string, from: int, to: int): nat {
    if trace == [] then 0
    else
      var before, r := trace[..|trace| - 1], trace[|trace| - 1];
      var counts := r.key == key && r.up && from <= r.time < to && Admitted(After(limit, before), limit, r);
      AdmittedIn(limit, before, key, from, to) + if counts then 1 else 0
  }

  // Requests for `key` served by the counter window that is open at the end.
  function ServedByWindow(limit: Limit, trace: seq<Request>, key: string, admittedOnly: bool): nat {
    if trace == [] then 0
    else
      var before, r := trace[..|trace| - 1], trace[|trace| - 1];
      var sofar := ServedByWindow(limit, before, key, admittedOnly);
      if r.key != key || !r.up then sofar
      else
        var one := if admittedOnly && !Admitted(After(limit, before), limit, r) then 0 else 1;
        if Live(After(limit, before), limit, r) then sofar + one else one
  }

  function Min(a: int, b: int): int { if a < b then a else b }

  function Max(a: int, b: int): int { if a < b then b else a }

  // Every counter window admits its first maxRequests requests and no other.
  lemma {:induction false} WindowAdmitsItsFirst(limit: Limit, trace: seq<Request>, key: string)
    ensures ServedByWindow(limit, trace, key, true) ==
      Max(0, Min(ServedByWindow(limit, trace, key, false), limit.maxRequests))
    ensures key in After(limit, trace) ==> After(limit, trace)[key].count == ServedByWindow(limit, trace, key, false)
    ensures key !in After(limit, trace) ==> ServedByWindow(limit, trace, key, false) == 0
  {
    if trace != [] {
      WindowAdmitsItsFirst(limit, trace[..|trace| - 1], key);
    }
  }

  // The times at which a counter window of `key` began.
  function Openings(limit: Limit, trace: seq<Request>, key: string): seq<int> {
    if trace == [] then []
    else
      var before, r := trace[..|trace| - 1], trace[|trace| - 1];
      Openings(limit, before, key) +
        if r.key == key && r.up && !Live(After(limit, before), limit, r) then [r.time] else []
  }

  // Window starts are at least windowMs apart.
  lemma {:induction false} WindowsAreApart(limit: Limit, trace: seq<Request>, key: string)
    ensures var openings := Openings(limit, trace, key);
      && (key in After(limit, trace) <==> openings != [])
      && (key in After(limit, trace) ==> After(limit, trace)[key].since == openings[|openings| - 1])
      && (forall i :: 0 < i < |openings| ==> openings[i - 1] + limit.windowMs <= openings[i])
  {
    if trace != [] {
      WindowsAreApart(limit, trace[..|trace| - 1], key);
    }
  }

  // ── The bound ────────────────────────────────────────────────────────────

  // What the open window says about [from, from + windowMs).
  predicate Bounded(limit: Limit, c: Counter, from: int, n: int, now: int) {
    && (now < from ==> n == 0)
    && (c.since < from ==> n <= Max(0, Min(c.count, limit.maxRequests) - 1))
    && (from <= c.since < from + limit.windowMs ==> n <= limit.maxRequests - 1 + Min(c.count, limit.maxRequests))
    && n <= 2 * limit.maxRequests - 1
  }

  lemma {:induction false} WindowsBoundAdmissions(limit: Limit, trace: seq<Request>, key: string, from: int)
    requires limit.maxRequests >= 1 && Monotone(trace)
    ensures var n := AdmittedIn(limit, trace, key, from, from + limit.windowMs);
      && (key !in After(limit, trace) ==> n == 0)
      && (key in After(limit, trace) ==>
        After(limit, trace)[key].count >= 1 && After(limit, trace)[key].since <= trace[|trace| - 1].time
        && Bounded(limit, After(limit, trace)[key], from, n, trace[|trace| - 1].time))
  {
    if trace != [] {
      WindowsBoundAdmissions(limit, trace[..|trace| - 1], key, from);
    }
  }

  lemma {:induction false} NothingAdmitted(limit: Limit, trace: seq<Request>, key: string, from: int, to: int)
    requires limit.maxRequests < 1
    ensures AdmittedIn(limit, trace, key, from, to) == 0
    ensures key in After(limit, trace) ==> After(limit, trace)[key].count >= 1
  {
    if trace != [] {
      NothingAdmitted(limit, trace[..|trace| - 1], key, from, to);
      var r := trace[|trace| - 1];
      if r.key != key && r.up && r.key in After(limit, trace[..|trace| - 1]) {
        NothingAdmitted(limit, trace[..|trace| - 1], r.key, from, to);
      }
    }
  }

  // The admitted requests of an interval of length windowMs.
  function AdmittedFrom(limit: Limit, trace: seq<Request>, key: string, from: int): nat {
    AdmittedIn(limit, trace, key, from, from + limit.windowMs)
  }

  // Over every trace with a monotone clock, an interval of length windowMs
  // holds at most 2 * maxRequests - 1 admitted requests of a key.
  lemma IntervalBound(limit: Limit, trace: seq<Request>, key: string, from: int)
    requires Monotone(trace)
    ensures AdmittedFrom(limit, trace, key, from) <= Max(0, 2 * limit.maxRequests - 1)
  {
    if limit.maxRequests < 1 {
      NothingAdmitted(limit, trace, key, from, from + limit.windowMs);
    } else {
      WindowsBoundAdmissions(limit, trace, key, from);
    }
  }

  // ── The bound is reached ─────────────────────────────────────────────────

  // n requests for one key at one time.
  function Burst(key: string, time: int, n: nat): seq<Request> {
    seq(n, _ => Request(key, time, true, false))
  }

  // Where a key stands after `trace`: its counter and how many admissions the
  // interval [from, to) holds.
  ghost predicate Stands(limit: Limit, trace: seq<Request>, key: string, c: Counter, from: int, to: int, n: int) {
    && key in After(limit, trace) && After(limit, trace)[key] == c
    && AdmittedIn(limit, trace, key, from, to) == n
  }

  lemma OneMore(limit: Limit, trace: seq<Request>, r: Request, c: Counter, from: int, to: int, n: int)
    requires Stands(limit, trace, r.key, c, from, to, n) && r.up && from <= r.time < to
    ensures r.time < c.since + limit.windowMs && c.count < limit.maxRequests ==>
      Stands(limit, trace + [r], r.key, Counter(c.count + 1, c.since), from, to, n + 1)
    ensures c.since + limit.windowMs < r.time && 1 <= limit.maxRequests ==>
      Stands(limit, trace + [r], r.key, Counter(1, r.time), from, to, n + 1)
  {
    assert (trace + [r])[..|trace|] == trace;
  }

  // A burst that fits into the live window of its key is admitted in full.
  lemma {:induction false} BurstAdmits(limit: Limit, trace: seq<Request>, key: string, time: int, n: nat, c: Counter,
      from: int, to: int, before: int)
    requires Stands(limit, trace, key, c, from, to, before)
    requires time < c.since + limit.windowMs && c.count + n <= limit.maxRequests && from <= time < to
    ensures Stands(limit, trace + Burst(key, time, n), key, Counter(c.count + n, c.since), from, to, before + n)
    decreases n
  {
    if n == 0 {
      assert trace + Burst(key, time, n) == trace;
    } else {
      var r := Request(key, time, true, false);
      OneMore(limit, trace, r, c, from, to, before);
      BurstAdmits(limit, trace + [r], key, time, n - 1, Counter(c.count + 1, c.since), from, to, before + 1);
      assert trace + Burst(key, time, n) == trace + [r] + Burst(key, time, n - 1);
    }
  }

  // One early request, the rest of the first window just before it ends, and a
  // full window just after.
  function WorstTrace(limit: Limit, key: string): seq<Request>
    requires limit.maxRequests >= 1
  {
    var first := [Request(key, 0, true, false)];
    var rest := first + Burst(key, limit.windowMs - 1, limit.maxRequests - 1);
    rest + [Request(key, limit.windowMs + 1, true, false)] + Burst(key, limit.windowMs + 1, limit.maxRequests - 1)
  }

  lemma WorstTraceIsMonotone(limit: Limit, key: string)
    requires limit.maxRequests >= 1 && limit.windowMs >= 3
    ensures Monotone(WorstTrace(limit, key))
  {
    var trace := WorstTrace(limit, key);
    forall i, k | 0 <= i < k < |trace| ensures trace[i].time <= trace[k].time {
    }
  }

  lemma BoundIsReached(limit: Limit, key: string)
    requires limit.maxRequests >= 1 && limit.windowMs >= 3
    ensures AdmittedFrom(limit, WorstTrace(limit, key), key, limit.windowMs - 1) == 2 * limit.maxRequests - 1
  {
    var w, max := limit.windowMs, limit.maxRequests;
    var from, to := w - 1, w - 1 + w;
    var first := [Request(key, 0, true, false)];
    assert first[..0] == [];
    assert Stands(limit, first, key, Counter(1, 0), from, to, 0);
    BurstAdmits(limit, first, key, w - 1, max - 1, Counter(1, 0), from, to, 0);
    var rest := first + Burst(key, w - 1, max - 1);
    var again := Request(key, w + 1, true, false);
    OneMore(limit, rest, again, Counter(max, 0), from, to, max - 1);
    BurstAdmits(limit, rest + [again], key, w + 1, max - 1, Counter(1, w + 1), from, to, max);
  }

  // At most maxRequests in every interval of length windowMs, as a sliding
  // window would guarantee.
  ghost predicate SlidesOver(limit: Limit, key: string) {
    forall trace, from :: Monotone(trace) ==> AdmittedFrom(limit, trace, key, from) <= limit.maxRequests
  }

  // The counter is a sliding window exactly when it admits one request or none.
  lemma SlidesIffOne(limit: Limit, key: string)
    requires 0 <= limit.maxRequests && limit.windowMs >= 3
    ensures SlidesOver(limit, key) <==> limit.maxRequests <= 1
  {
    if limit.maxRequests <= 1 {
      forall trace: seq<Request>, from: int | Monotone(trace)
        ensures AdmittedFrom(limit, trace, key, from) <= limit.maxRequests
      {
        IntervalBound(limit, trace, key, from);
      }
    } else {
      WorstTraceIsMonotone(limit, key);
      BoundIsReached(limit, key);
    }
  }

  // ── The guard ────────────────────────────────────────────────────────────

  class RateLimitGuard {
    var redis: Store
    ghost var trace: seq<Request>
    const limit: Limit

    ghost predicate Valid()
      reads this
    {
      redis == After(limit, trace) && Monotone(trace)
    }

    constructor (limit: Limit)
      ensures Valid() && this.limit == limit && trace == []
    {
      this.limit := limit;
      redis, trace := map[], [];
    }

    method Eval(key: string, now: int, lapsed: bool) returns (current: int)
      modifies `redis
      ensures var r := Request(key, now, true, lapsed);
        redis == AfterHit(old(redis), limit, r) && current == Hit(old(redis), limit, r).count
      ensures var gone := key !in old(redis) || old(redis)[key].since + limit.windowMs < now ||
          (old(redis)[key].since + limit.windowMs == now && lapsed);
        && redis ==
             old(redis)[key := if gone then Counter(1, now)
               else Counter(old(redis)[key].count + 1, old(redis)[key].since)]
        && current == redis[key].count
    {
      if key in redis && redis[key].since + limit.windowMs < now {
        redis := redis - {key};
      } else if key in redis && redis[key].since + limit.windowMs == now && lapsed {
        redis := redis - {key};
      }
      if key in redis {
        current := redis[key].count + 1;
        redis := redis[key := redis[key].(count := current)];
      } else {
        current := 1;
        redis := redis[key := Counter(1, now)];
      }
    }

    // False stands for the 429 exception.
    method CanActivate(limited: bool, r: Request) returns (ok: bool)
      requires Valid() && forall q :: q in trace ==> q.time <= r.time
      modifies this
      ensures Valid()
      ensures !limited ==> ok && trace == old(trace)
      ensures limited ==> trace == old(trace) + [r] && ok == Admitted(old(redis), limit, r)
      ensures !limited || !r.up ==> ok && redis == old(redis)
      ensures limited && r.up ==> r.key in redis && (ok <==> redis[r.key].count <= limit.maxRequests)
      ensures forall from :: AdmittedFrom(limit, trace, r.key, from) <= Max(0, 2 * limit.maxRequests - 1)
    {
      ok := true;
      if limited {
        assert (trace + [r])[..|trace|] == trace;
        if r.up {
          var count := Eval(r.key, r.time, r.lapsed);
          ok := count <= limit.maxRequests;
        }
        trace := trace + [r];
      }
      forall from ensures AdmittedFrom(limit, trace, r.key, from) <= Max(0, 2 * limit.maxRequests - 1) {
        IntervalBound(limit, trace, r.key, from);
      }
    }
  }
}
