/**
 * The per-IP counters of apps/api/src/auth/registration.service.ts and email-confirmation.service.ts over
 * the shared TTL cache. Requests run one at a time; the clock does not go back.
 */
module RateLimiter {
  import opened Wrappers

  type Ip = string
  type Time = int

  const REGISTER_PREFIX := "demo:register:"
  const RESEND_PREFIX := "demo:resend-confirmation:"

  datatype Entry = Entry(value: int, expiresAt: Time)

  /** The key-value cache; an entry is gone from its expiry on. */
  type Cache = map<string, Entry>

  datatype Limiter = Limiter(prefix: string, limit: int, windowSeconds: int)

  function Lookup(cache: Cache, key: string, now: Time): Option<int> {
    if key in cache && cache[key].expiresAt > now then Some(cache[key].value) else None
  }

  function Key(l: Limiter, ip: Ip): string {
    l.prefix + ip
  }

  function Step(cache: Cache, l: Limiter, ip: Ip, now: Time): (Cache, bool) {
    var key := Key(l, ip);
    var current := Lookup(cache, key, now);
    var count := if current.Some? then current.value else 0;
    if count >= l.limit then (cache, false)
    else (cache[key := Entry(count + 1, now + l.windowSeconds)], true)
  }

  class CachePort {
    var entries: Cache

    constructor ()
      ensures entries == map[]
    {
      entries := map[];
    }

    method Get(key: string, now: Time) returns (value: Option<int>)
      ensures value == Lookup(entries, key, now)
    {
      if key !in entries || entries[key].expiresAt <= now {
        return None;
      }
      value := Some(entries[key].value);
    }

    method Set(key: string, value: int, ttl: int, now: Time)
      modifies this
      ensures entries == old(entries)[key := Entry(value, now + ttl)]
    {
      entries := entries[key := Entry(value, now + ttl)];
    }
  }

  method EnforceRateLimit(cache: CachePort, l: Limiter, ip: Ip, now: Time) returns (passed: bool)
    modifies cache
    ensures (cache.entries, passed) == Step(old(cache.entries), l, ip, now)
    ensures passed <==> if l.prefix + ip in old(cache.entries) && now < old(cache.entries)[l.prefix + ip].expiresAt
                        then old(cache.entries)[l.prefix + ip].value < l.limit else 0 < l.limit
    ensures !passed ==> cache.entries == old(cache.entries)
    ensures passed ==>
              && l.prefix + ip in cache.entries && cache.entries[l.prefix + ip].expiresAt == now + l.windowSeconds
              && cache.entries[l.prefix + ip].value
                 == (if l.prefix + ip in old(cache.entries) && now < old(cache.entries)[l.prefix + ip].expiresAt
                     then old(cache.entries)[l.prefix + ip].value + 1 else 1)
              && forall key :: key != l.prefix + ip ==>
                   && (key in cache.entries <==> key in old(cache.entries))
                   && (key in cache.entries ==> cache.entries[key] == old(cache.entries)[key])
  {
    var key := l.prefix + ip;
    var current := cache.Get(key, now);
    var count := if current.Some? then current.value else 0;
    if count >= l.limit {
      return false;
    }
    cache.Set(key, count + 1, l.windowSeconds, now);
    passed := true;
  }

  // ---------------------------------------------------------------- runs

  /** A request to one of the two limited endpoints. */
  datatype Request = Request(limiter: Limiter, ip: Ip, at: Time)

  /** The times at which requests under `key` passed. */
  function Passes(cache: Cache, reqs: seq<Request>, key: string): seq<Time>
    decreases |reqs|
  {
    if reqs == [] then []
    else
      var (next, passed) := Step(cache, reqs[0].limiter, reqs[0].ip, reqs[0].at);
      if passed && Key(reqs[0].limiter, reqs[0].ip) == key then [reqs[0].at] + Passes(next, reqs[1..], key)
      else Passes(next, reqs[1..], key)
  }

  /** The clock only moves forward, and one key always meets the same limiter. */
  ghost predicate Ordered(reqs: seq<Request>) {
    forall i, j :: 0 <= i < j < |reqs| ==> reqs[i].at <= reqs[j].at
  }

  ghost predicate SameLimiter(reqs: seq<Request>, key: string, l: Limiter) {
    forall i :: 0 <= i < |reqs| && Key(reqs[i].limiter, reqs[i].ip) == key ==> reqs[i].limiter == l
  }

  function OnlyKey(reqs: seq<Request>, key: string): seq<Request> {
    if reqs == [] then []
    else if Key(reqs[0].limiter, reqs[0].ip) == key then [reqs[0]] + OnlyKey(reqs[1..], key)
    else OnlyKey(reqs[1..], key)
  }

  /** Different addresses, and the two endpoints, never share a counter. */
  lemma KeysDistinct(a: Limiter, b: Limiter, x: Ip, y: Ip)
    requires a.prefix in {REGISTER_PREFIX, RESEND_PREFIX} && b.prefix in {REGISTER_PREFIX, RESEND_PREFIX}
    ensures Key(a, x) == Key(b, y) <==> a.prefix == b.prefix && x == y
  {
    if a.prefix == b.prefix {
      assert Key(a, x)[|a.prefix|..] == x && Key(b, y)[|b.prefix|..] == y;
    } else {
      assert Key(a, x)[7] == a.prefix[7] && Key(b, y)[7] == b.prefix[7];
      assert REGISTER_PREFIX[7] == 'g' && RESEND_PREFIX[7] == 's';
    }
  }

  /** Traffic under other keys never changes an outcome. */
  lemma {:induction false} OtherKeysDoNotMatter(a: Cache, b: Cache, reqs: seq<Request>, key: string)
    requires key in a <==> key in b
    requires key in a ==> a[key] == b[key]
    ensures Passes(a, reqs, key) == Passes(b, OnlyKey(reqs, key), key)
    decreases |reqs|
  {
    if reqs != [] {
      var r := reqs[0];
      if Key(r.limiter, r.ip) == key {
        var rest := OnlyKey(reqs[1..], key);
        assert ([r] + rest)[1..] == rest;
        OtherKeysDoNotMatter(Step(a, r.limiter, r.ip, r.at).0, Step(b, r.limiter, r.ip, r.at).0, reqs[1..], key);
      } else {
        OtherKeysDoNotMatter(Step(a, r.limiter, r.ip, r.at).0, b, reqs[1..], key);
      }
    }
  }

  // ---------------------------------------------------------------- bursts

  /** How many of the last passes follow one another at gaps shorter than the window. */
  function Burst(past: seq<Time>, window: int): nat {
    if past == [] then 0
    else if |past| == 1 || past[|past| - 1] - past[|past| - 2] >= window then 1
    else 1 + Burst(past[..|past| - 1], window)
  }

  /** The counter under the key, as a function of the passes so far. */
  ghost predicate Explains(cache: Cache, key: string, past: seq<Time>, l: Limiter) {
    && (key in cache <==> past != [])
    && (past != [] ==> cache[key] == Entry(Burst(past, l.windowSeconds), past[|past| - 1] + l.windowSeconds))
  }

  /** The count a request at `now` sees: the burst, unless a whole window has gone by since the last pass. */
  function Counted(past: seq<Time>, l: Limiter, now: Time): nat {
    if past == [] || now - past[|past| - 1] >= l.windowSeconds then 0 else Burst(past, l.windowSeconds)
  }

  /** Exactly when a request passes: the running burst is below the limit. */
  lemma PassesIff(cache: Cache, l: Limiter, ip: Ip, now: Time, past: seq<Time>)
    requires Explains(cache, Key(l, ip), past, l) && l.windowSeconds > 0
    ensures var (next, passed) := Step(cache, l, ip, now);
            && (passed <==> Counted(past, l, now) < l.limit)
            && Explains(next, Key(l, ip), if passed then past + [now] else past, l)
  {
    if past != [] {
      assert (past + [now])[..|past|] == past;
    }
  }

  ghost predicate BurstsWithin(past: seq<Time>, l: Limiter) {
    forall n :: 0 <= n <= |past| ==> Burst(past[..n], l.windowSeconds) <= (if l.limit < 0 then 0 else l.limit)
  }

  ghost predicate Ascending(past: seq<Time>) {
    forall i, j :: 0 <= i < j < |past| ==> past[i] <= past[j]
  }

  /** The passes under `key` so far explain its counter, and every burst among them is short. */
  ghost predicate Limited(cache: Cache, key: string, past: seq<Time>, l: Limiter) {
    Explains(cache, key, past, l) && BurstsWithin(past, l) && Ascending(past)
  }

  function Extended(cache: Cache, r: Request, key: string, past: seq<Time>): seq<Time> {
    if Step(cache, r.limiter, r.ip, r.at).1 && Key(r.limiter, r.ip) == key then past + [r.at] else past
  }

  lemma StepKeepsLimited(cache: Cache, r: Request, key: string, l: Limiter, past: seq<Time>)
    requires Limited(cache, key, past, l) && l.windowSeconds > 0
    requires Key(r.limiter, r.ip) == key ==> r.limiter == l
    requires past != [] ==> past[|past| - 1] <= r.at
    ensures Limited(Step(cache, r.limiter, r.ip, r.at).0, key, Extended(cache, r, key, past), l)
  {
    if Key(r.limiter, r.ip) == key {
      PassesIff(cache, l, r.ip, r.at, past);
      if Step(cache, l, r.ip, r.at).1 {
        ExtendBursts(past, r.at, l);
      }
    }
  }

  lemma PassesUnfold(cache: Cache, reqs: seq<Request>, key: string, past: seq<Time>)
    requires reqs != []
    ensures past + Passes(cache, reqs, key)
         == Extended(cache, reqs[0], key, past) + Passes(Step(cache, reqs[0].limiter, reqs[0].ip, reqs[0].at).0, reqs[1..], key)
  {
  }

  ghost predicate Short(past: seq<Time>, l: Limiter) {
    BurstsWithin(past, l) && Ascending(past)
  }

  lemma {:induction false} RunKeepsBurstsShort(cache: Cache, reqs: seq<Request>, key: string, l: Limiter, past: seq<Time>)
    requires Ordered(reqs) && SameLimiter(reqs, key, l) && l.windowSeconds > 0
    requires Limited(cache, key, past, l)
    requires past != [] && reqs != [] ==> past[|past| - 1] <= reqs[0].at
    ensures Short(past + Passes(cache, reqs, key), l)
    decreases |reqs|
  {
    if reqs == [] {
      assert past + Passes(cache, reqs, key) == past;
    } else {
      StepKeepsLimited(cache, reqs[0], key, l, past);
      PassesUnfold(cache, reqs, key, past);
      RunKeepsBurstsShort(Step(cache, reqs[0].limiter, reqs[0].ip, reqs[0].at).0, reqs[1..], key, l,
                          Extended(cache, reqs[0], key, past));
    }
  }

  lemma ExtendBursts(past: seq<Time>, now: Time, l: Limiter)
    requires BurstsWithin(past, l) && Ascending(past) && (past != [] ==> past[|past| - 1] <= now)
    requires Counted(past, l, now) < l.limit
    ensures BurstsWithin(past + [now], l) && Ascending(past + [now])
  {
    var all := past + [now];
    forall n | 0 <= n <= |all| ensures Burst(all[..n], l.windowSeconds) <= l.limit {
      if n <= |past| {
        assert all[..n] == past[..n];
      } else {
        assert all[..n] == all && all[..|past|] == past;
      }
    }
  }

  /** Passes packed at gaps below the window form one burst. */
  lemma {:induction false} DenseIsOneBurst(past: seq<Time>, window: int, i: nat, n: nat)
    requires i + n <= |past| && n > 0
    requires forall k :: i < k < i + n ==> past[k] - past[k - 1] < window
    ensures Burst(past[..i + n], window) >= n
  {
    var s := past[..i + n];
    if n > 1 {
      DenseIsOneBurst(past, window, i, n - 1);
      assert s[..|s| - 1] == past[..i + n - 1];
      assert s[|s| - 1] == past[i + n - 1] && s[|s| - 2] == past[i + n - 2];
    }
  }

  /** Among limit + 1 passes some two neighbours are a window apart. */
  lemma GapInside(times: seq<Time>, l: Limiter, i: nat) returns (k: int)
    requires BurstsWithin(times, l) && l.limit >= 0 && i + l.limit < |times|
    ensures i < k <= i + l.limit && times[k] - times[k - 1] >= l.windowSeconds
  {
    var n := i + l.limit + 1;
    assert Burst(times[..n], l.windowSeconds) <= l.limit;
    if forall k :: i < k < n ==> times[k] - times[k - 1] < l.windowSeconds {
      DenseIsOneBurst(times, l.windowSeconds, i, l.limit + 1);
      assert false;
    }
    k :| i < k < n && times[k] - times[k - 1] >= l.windowSeconds;
  }

  lemma ShortSpan(times: seq<Time>, l: Limiter, i: nat)
    requires Short(times, l) && l.limit >= 0 && i + l.limit < |times|
    ensures times[i + l.limit] - times[i] >= l.windowSeconds && l.limit > 0
  {
    var k := GapInside(times, l, i);
    assert i == k - 1 || times[i] <= times[k - 1];
    assert k == i + l.limit || times[k] <= times[i + l.limit];
  }

  /**
   * The limiter's promise: any limit + 1 consecutive passes under one key span at least the window, so no
   * shorter span contains more than `limit` of them.
   */
  lemma NoShortSpanHoldsMoreThanLimit(reqs: seq<Request>, key: string, l: Limiter, i: nat)
    requires Ordered(reqs) && SameLimiter(reqs, key, l) && l.windowSeconds > 0 && l.limit >= 0
    requires i + l.limit < |Passes(map[], reqs, key)|
    ensures var times := Passes(map[], reqs, key);
            && times[i + l.limit] - times[i] >= l.windowSeconds
            && l.limit > 0
  {
    RunKeepsBurstsShort(map[], reqs, key, l, []);
    assert [] + Passes(map[], reqs, key) == Passes(map[], reqs, key);
    ShortSpan(Passes(map[], reqs, key), l, i);
  }

  // ---------------------------------------------------------------- not a fixed window

  /** A fixed-window counter over the same passes: when its current window opened, and its count. */
  function FixedWindow(past: seq<Time>, window: int): (Time, nat) {
    if past == [] then (0, 0)
    else
      var (start, count) := FixedWindow(past[..|past| - 1], window);
      var at := past[|past| - 1];
      if count > 0 && at - start < window then (start, count + 1) else (at, 1)
  }

  function FixedCounted(past: seq<Time>, l: Limiter, now: Time): nat {
    var (start, count) := FixedWindow(past, l.windowSeconds);
    if now - start >= l.windowSeconds then 0 else count
  }

  /** The fixed window opened at one of the burst's passes; it holds the whole burst if that is short enough. */
  lemma {:induction false} FixedWindowInBurst(past: seq<Time>, window: int)
    requires past != [] && Ascending(past) && window > 0
    ensures var (start, count) := FixedWindow(past, window);
            var n, b := |past|, Burst(past, window);
            && 1 <= count <= b <= n && start == past[n - count]
            && (past[n - 1] - past[n - b] < window ==> count == b)
  {
    var before := past[..|past| - 1];
    if before != [] {
      FixedWindowInBurst(before, window);
    }
  }

  /**
   * Exactly when the limiter departs from a fixed window over the same passes: it never lets through what
   * that one stops, and it refuses what that one lets through when the oldest of the last `limit` passes is
   * already a window old.
   */
  lemma DiffersFromFixedWindowIff(past: seq<Time>, l: Limiter, now: Time)
    requires Short(past, l) && l.windowSeconds > 0 && (past != [] ==> past[|past| - 1] <= now)
    ensures Counted(past, l, now) < l.limit ==> FixedCounted(past, l, now) < l.limit
    ensures Counted(past, l, now) >= l.limit > 0 ==>
              l.limit <= |past|
              && (FixedCounted(past, l, now) < l.limit <==> now - past[|past| - l.limit] >= l.windowSeconds)
  {
    if past != [] {
      FixedWindowInBurst(past, l.windowSeconds);
      assert past[..|past|] == past;
      var count := FixedWindow(past, l.windowSeconds).1;
      assert past[|past| - count] <= past[|past| - 1];
    }
  }

  /** The n-th tick of a clock that strikes one second before each window would be over. */
  function Tick(l: Limiter, n: nat): Time {
    if n == 0 then 0 else Tick(l, n - 1) + l.windowSeconds - 1
  }

  function SteadyTimes(l: Limiter, n: nat): (s: seq<Time>)
    ensures |s| == n
  {
    if n == 0 then [] else SteadyTimes(l, n - 1) + [Tick(l, n - 1)]
  }

  /** One client's requests from the n-th tick to the tick after `limit` passes. */
  function SteadyFrom(l: Limiter, ip: Ip, n: nat): seq<Request>
    decreases l.limit - n
  {
    if n > l.limit then [] else [Request(l, ip, Tick(l, n))] + SteadyFrom(l, ip, n + 1)
  }

  lemma {:induction false} SteadyIsOneBurst(l: Limiter, n: nat)
    requires n > 0 && l.windowSeconds > 1
    ensures Burst(SteadyTimes(l, n), l.windowSeconds) == n
    ensures SteadyTimes(l, n)[n - 1] == Tick(l, n - 1)
  {
    if n > 1 {
      SteadyIsOneBurst(l, n - 1);
      assert SteadyTimes(l, n)[..n - 1] == SteadyTimes(l, n - 1);
    }
  }

  lemma SteadyCount(l: Limiter, n: nat)
    requires l.windowSeconds > 1
    ensures Counted(SteadyTimes(l, n), l, Tick(l, n)) == n
  {
    if n > 0 {
      SteadyIsOneBurst(l, n);
    }
  }

  /** The n-th tick passes as long as n is below the limit. */
  lemma SteadyStep(cache: Cache, l: Limiter, ip: Ip, n: nat)
    requires l.windowSeconds > 1 && Explains(cache, Key(l, ip), SteadyTimes(l, n), l)
    ensures var (next, passed) := Step(cache, l, ip, Tick(l, n));
            && (passed <==> n < l.limit)
            && (passed ==> Explains(next, Key(l, ip), SteadyTimes(l, n + 1), l))
  {
    SteadyCount(l, n);
    PassesIff(cache, l, ip, Tick(l, n), SteadyTimes(l, n));
  }

  lemma {:induction false} SteadyRun(cache: Cache, l: Limiter, ip: Ip, n: nat)
    requires l.windowSeconds > 1 && n <= l.limit
    requires Explains(cache, Key(l, ip), SteadyTimes(l, n), l)
    ensures SteadyTimes(l, n) + Passes(cache, SteadyFrom(l, ip, n), Key(l, ip)) == SteadyTimes(l, l.limit)
    decreases l.limit - n
  {
    var reqs := SteadyFrom(l, ip, n);
    SteadyStep(cache, l, ip, n);
    PassesUnfold(cache, reqs, Key(l, ip), SteadyTimes(l, n));
    assert reqs[1..] == SteadyFrom(l, ip, n + 1);
    if n < l.limit {
      SteadyRun(Step(cache, l, ip, Tick(l, n)).0, l, ip, n + 1);
    }
  }

  lemma {:induction false} TicksApart(l: Limiter, n: nat, i: nat)
    requires i + 2 <= n && l.windowSeconds > 1
    ensures Tick(l, n) - SteadyTimes(l, n)[i] >= l.windowSeconds
  {
    if i + 2 == n {
      assert SteadyTimes(l, n)[i] == SteadyTimes(l, n - 1)[i] == Tick(l, i);
    } else {
      TicksApart(l, n - 1, i);
    }
  }

  /**
   * Each pass restarts the timer, so the counter is not a fixed window: a client that asks once per
   * window minus one second passes `limit` times and is then refused, although all its passes but the
   * newest are at least a window old.
   */
  lemma SteadyClientIsRefused(l: Limiter, ip: Ip)
    requires l.limit > 0 && l.windowSeconds > 1
    ensures Passes(map[], SteadyFrom(l, ip, 0), Key(l, ip)) == SteadyTimes(l, l.limit)
    ensures Tick(l, l.limit) !in Passes(map[], SteadyFrom(l, ip, 0), Key(l, ip))
    ensures forall i :: 0 <= i < l.limit - 1 ==> Tick(l, l.limit) - SteadyTimes(l, l.limit)[i] >= l.windowSeconds
  {
    SteadyRun(map[], l, ip, 0);
    assert [] + Passes(map[], SteadyFrom(l, ip, 0), Key(l, ip)) == Passes(map[], SteadyFrom(l, ip, 0), Key(l, ip));
    forall i | 0 <= i < l.limit ensures Tick(l, l.limit) > SteadyTimes(l, l.limit)[i]
                                && (i < l.limit - 1 ==> Tick(l, l.limit) - SteadyTimes(l, l.limit)[i] >= l.windowSeconds)
    {
      if i < l.limit - 1 {
        TicksApart(l, l.limit, i);
      } else {
        SteadyIsOneBurst(l, l.limit);
      }
    }
  }
}
