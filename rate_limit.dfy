/** The in-memory rate limiter of `api/lib/rateLimit.ts`: per client address,
    at most 10 requests in a minute window and 100 in an hour window.  The
    clock is a parameter `now`, in milliseconds. */
module RateLimit {
  import opened Strings
  import opened Numbers

  /** The counters of one client address. */
  datatype Entry = Entry(minute: int, hour: int, minuteStart: int, hourStart: int)

  datatype RateLimitResult = RateLimitResult(allowed: bool, limit: int, remaining: int, reset: int)

  const MinuteWindow := 60 * 1000
  const HourWindow := 60 * 60 * 1000
  const MinuteLimit := 10
  const HourLimit := 100

  /** `Math.ceil(x / 1000)` on a whole number of milliseconds: seconds,
      rounded up. */
  function CeilSeconds(x: int): (r: int)
    ensures (r - 1) * 1000 < x <= r * 1000
  {
    (x + 999) / 1000
  }

  /** `Math.min(a, b)`. */
  function Min(a: int, b: int): (r: int)
    ensures r <= a && r <= b && (r == a || r == b)
  {
    if a <= b then a else b
  }

  /** The counters start over in each window that has run out. */
  function Refresh(e: Entry, now: int): (r: Entry)
    ensures now - e.minuteStart > MinuteWindow ==> r.minute == 0 && r.minuteStart == now
    ensures now - e.minuteStart <= MinuteWindow ==> r.minute == e.minute && r.minuteStart == e.minuteStart
    ensures now - e.hourStart > HourWindow ==> r.hour == 0 && r.hourStart == now
    ensures now - e.hourStart <= HourWindow ==> r.hour == e.hour && r.hourStart == e.hourStart
  {
    var e1 := if now - e.minuteStart > MinuteWindow then e.(minute := 0, minuteStart := now) else e;
    if now - e1.hourStart > HourWindow then e1.(hour := 0, hourStart := now) else e1
  }

  /** An entry the limiter can hold: counters never above their limits. */
  predicate Bounded(e: Entry) {
    0 <= e.minute <= MinuteLimit && 0 <= e.hour <= HourLimit
  }

  /** What `checkRateLimit` answers for `ip` at `now`, and the store after
      it.  A known address's entry is changed in place, so its window resets
      are kept even when the request is refused; a new entry is stored only
      when the request is allowed. */
  function Check(store: map<string, Entry>, ip: string, now: int): (RateLimitResult, map<string, Entry>) {
    var known := ip in store;
    var e := Refresh(if known then store[ip] else Entry(0, 0, now, now), now);
    var kept := if known then store[ip := e] else store;
    if e.minute >= MinuteLimit then
      (RateLimitResult(false, MinuteLimit, 0, CeilSeconds(e.minuteStart + MinuteWindow)), kept)
    else if e.hour >= HourLimit then
      (RateLimitResult(false, HourLimit, 0, CeilSeconds(e.hourStart + HourWindow)), kept)
    else
      var counted := e.(minute := e.minute + 1, hour := e.hour + 1);
      (RateLimitResult(true, MinuteLimit, Min(MinuteLimit - counted.minute, HourLimit - counted.hour),
                       CeilSeconds(counted.minuteStart + MinuteWindow)),
       store[ip := counted])
  }

  /** The entry has not been touched for more than an hour. */
  predicate Expired(e: Entry, now: int) {
    now - e.hourStart > HourWindow
  }

  /** The store after the periodic clean-up at `now`. */
  function Swept(store: map<string, Entry>, now: int): (r: map<string, Entry>)
    ensures forall ip :: ip in r <==> ip in store && !Expired(store[ip], now)
    ensures forall ip :: ip in r ==> r[ip] == store[ip]
  {
    map ip | ip in store && !Expired(store[ip], now) :: store[ip]
  }

  /** `getRateLimitHeaders`. */
  function Headers(r: RateLimitResult): (h: map<string, string>)
    ensures h.Keys == {"X-RateLimit-Limit", "X-RateLimit-Remaining", "X-RateLimit-Reset"}
  {
    map["X-RateLimit-Limit" := IntText(r.limit),
        "X-RateLimit-Remaining" := IntText(r.remaining),
        "X-RateLimit-Reset" := IntText(r.reset)]
  }

  /** The module-level `limitStore` with the two operations on it. */
  class RateLimiter {
    var store: map<string, Entry>

    /** Every stored entry is within its limits. */
    ghost predicate Valid()
      reads this
    {
      forall ip :: ip in store ==> Bounded(store[ip])
    }

    constructor ()
      ensures store == map[] && Valid()
    {
      store := map[];
    }

    /** `checkRateLimit(ip)` at time `now`. */
    method CheckRateLimit(ip: string, now: int) returns (result: RateLimitResult)
      requires Valid()
      modifies this
      ensures (result, store) == Check(old(store), ip, now)
      ensures Valid()
    {
      CheckKeepsBounds(store, ip, now);
      var known := ip in store;
      var entry := if known then store[ip] else Entry(0, 0, now, now);
      ghost var found := entry;
      if now - entry.minuteStart > MinuteWindow {
        entry := entry.(minute := 0, minuteStart := now);
      }
      if now - entry.hourStart > HourWindow {
        entry := entry.(hour := 0, hourStart := now);
      }
      assert entry == Refresh(found, now);
      if known {
        store := store[ip := entry];
      }
      if entry.minute >= MinuteLimit {
        return RateLimitResult(false, MinuteLimit, 0, CeilSeconds(entry.minuteStart + MinuteWindow));
      }
      if entry.hour >= HourLimit {
        return RateLimitResult(false, HourLimit, 0, CeilSeconds(entry.hourStart + HourWindow));
      }
      entry := entry.(minute := entry.minute + 1, hour := entry.hour + 1);
      store := store[ip := entry];
      assert store == old(store)[ip := entry];
      var minuteRemaining := MinuteLimit - entry.minute;
      var hourRemaining := HourLimit - entry.hour;
      result := RateLimitResult(true, MinuteLimit, Min(minuteRemaining, hourRemaining),
                                CeilSeconds(entry.minuteStart + MinuteWindow));
    }

    /** The clean-up run every ten minutes: entries whose hour window started
        more than an hour ago are deleted. */
    method Sweep(now: int)
      requires Valid()
      modifies this
      ensures store == Swept(old(store), now)
      ensures Valid()
    {
      var ips := store.Keys;
      while ips != {}
        invariant ips <= old(store).Keys
        invariant forall ip :: ip in store <==> ip in old(store) && (ip in ips || !Expired(old(store)[ip], now))
        invariant forall ip :: ip in store ==> store[ip] == old(store)[ip]
        decreases ips
      {
        var ip :| ip in ips;
        if Expired(store[ip], now) {
          store := store - {ip};
        }
        ips := ips - {ip};
      }
    }
  }

  // ---------------------------------------------------------------------------
  // Properties

  /** A check keeps every stored entry within its limits. */
  lemma CheckKeepsBounds(store: map<string, Entry>, ip: string, now: int)
    requires forall a :: a in store ==> Bounded(store[a])
    ensures var s := Check(store, ip, now).1;
            forall a :: a in s ==> Bounded(s[a])
  {
  }

  /** A check changes nothing but the entry of its own address. */
  lemma CheckLeavesOthers(store: map<string, Entry>, ip: string, now: int, other: string)
    requires other != ip
    ensures var s := Check(store, ip, now).1;
            (other in s <==> other in store) && (other in store ==> s[other] == store[other])
  {
  }

  /** Refused requests: once the minute window holds ten requests, or the hour
      window a hundred, the request is refused with nothing remaining and the
      end of the full window, in seconds, as the reset time; nothing is
      counted. */
  lemma RefusedWhenFull(store: map<string, Entry>, ip: string, now: int)
    requires ip in store
    ensures var e := Refresh(store[ip], now);
            var (r, s) := Check(store, ip, now);
            (!r.allowed <==> e.minute >= MinuteLimit || e.hour >= HourLimit) &&
            (!r.allowed ==> r.remaining == 0 && s == store[ip := e]) &&
            (e.minute >= MinuteLimit ==>
               r.limit == MinuteLimit && (r.reset - 1) * 1000 < e.minuteStart + MinuteWindow <= r.reset * 1000) &&
            (e.minute < MinuteLimit && e.hour >= HourLimit ==>
               r.limit == HourLimit && (r.reset - 1) * 1000 < e.hourStart + HourWindow <= r.reset * 1000)
  {
  }

  /** An allowed request is counted once in both windows, and the remaining
      count is what is left of the tighter of the two limits. */
  lemma AllowedCounts(store: map<string, Entry>, ip: string, now: int)
    requires forall a :: a in store ==> Bounded(store[a])
    requires Check(store, ip, now).0.allowed
    ensures var e := Refresh(if ip in store then store[ip] else Entry(0, 0, now, now), now);
            var (r, s) := Check(store, ip, now);
            ip in s && s[ip].minute == e.minute + 1 && s[ip].hour == e.hour + 1 &&
            r.limit == MinuteLimit && 0 <= r.remaining < MinuteLimit &&
            r.remaining == Min(MinuteLimit - s[ip].minute, HourLimit - s[ip].hour)
  {
  }

  /** A new address is always allowed, starting both windows now. */
  lemma NewAddressAllowed(store: map<string, Entry>, ip: string, now: int)
    requires ip !in store
    ensures var (r, s) := Check(store, ip, now);
            r.allowed && r.remaining == MinuteLimit - 1 && s == store[ip := Entry(1, 1, now, now)]
  {
  }

  /** The checks of `ip` at the given times, in order: how many were
      allowed, and the store after them. */
  function Run(store: map<string, Entry>, ip: string, times: seq<int>): (int, map<string, Entry>)
    decreases |times|
  {
    if times == [] then (0, store)
    else
      var (r, s) := Check(store, ip, times[0]);
      var (n, last) := Run(s, ip, times[1..]);
      ((if r.allowed then 1 else 0) + n, last)
  }

  /** Within one minute window at most ten requests of an address are
      allowed, less those already counted in it. */
  lemma {:induction false} MinuteCap(store: map<string, Entry>, ip: string, times: seq<int>)
    requires ip in store && Bounded(store[ip])
    requires forall k :: 0 <= k < |times| ==> times[k] - store[ip].minuteStart <= MinuteWindow
    ensures Run(store, ip, times).0 <= MinuteLimit - store[ip].minute
    decreases |times|
  {
    if times != [] {
      var s := Check(store, ip, times[0]).1;
      assert s[ip].minuteStart == store[ip].minuteStart;
      MinuteCap(s, ip, times[1..]);
    }
  }

  /** A fresh address gets at most ten requests through in the minute after
      its first one. */
  lemma FirstMinuteCap(store: map<string, Entry>, ip: string, times: seq<int>)
    requires ip !in store && times != []
    requires forall k :: 0 <= k < |times| ==> times[k] - times[0] <= MinuteWindow
    ensures Run(store, ip, times).0 <= MinuteLimit
  {
    var s := Check(store, ip, times[0]).1;
    MinuteCap(s, ip, times[1..]);
  }

  /** The headers carry the result's numbers in decimal: a client reading
      a non-negative header gets the number back. */
  lemma HeadersRoundTrip(r: RateLimitResult, name: string)
    requires name in Headers(r)
    ensures var v := if name == "X-RateLimit-Limit" then r.limit
                     else if name == "X-RateLimit-Remaining" then r.remaining else r.reset;
            v >= 0 ==> DigitsValue(Headers(r)[name]) == v
  {
    if name == "X-RateLimit-Limit" {
      if r.limit >= 0 { NatTextValue(r.limit); }
    } else if name == "X-RateLimit-Remaining" {
      if r.remaining >= 0 { NatTextValue(r.remaining); }
    } else if r.reset >= 0 {
      NatTextValue(r.reset);
    }
  }
}
