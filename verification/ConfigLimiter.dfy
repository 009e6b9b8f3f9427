/** How the config server limits the requests for one file of one server. */
module ConfigLimiter {
  datatype Key = Key(app: string, server: string, ip: string, file: string)

  /** When the first request of a period came, and how many have been allowed since. */
  datatype Entry = Entry(first: int, count: int)

  /** `limit` is the configured number of requests, `window` the length of a period in seconds. */
  datatype Limits = Limits(limit: int, window: int)

  type Table = map<Key, Entry>

  /** The limits as the server takes them from its configuration. */
  function Configured(limitInterval: int, interval: int): (r: Limits)
    ensures r.limit > 0 && r.window >= 60 && r.window % 60 == 0
    ensures limitInterval > 0 ==> r.limit == limitInterval
    ensures interval > 0 ==> r.window == 60 * interval
  {
    Limits(if limitInterval <= 0 then 10 else limitInterval, 60 * (if interval <= 0 then 1 else interval))
  }

  predicate Refused(l: Limits, t: Table, key: Key, now: int) {
    key in t && now - t[key].first <= l.window && t[key].count > l.limit
  }

  function Asked(l: Limits, t: Table, key: Key, now: int): Table {
    if key !in t then t[key := Entry(now, 1)]
    else if now - t[key].first > l.window then t - {key}
    else if t[key].count <= l.limit then t[key := Entry(t[key].first, t[key].count + 1)]
    else t
  }

  datatype Request = Request(key: Key, now: int)

  function After(l: Limits, requests: seq<Request>): Table {
    if requests == [] then map[]
    else
      var r := requests[|requests| - 1];
      Asked(l, After(l, requests[..|requests| - 1]), r.key, r.now)
  }

  /** How many requests of a key were allowed from time lo up to and including time hi. */
  function Allowed(l: Limits, requests: seq<Request>, key: Key, lo: int, hi: int): nat {
    if requests == [] then 0
    else
      var init, r := requests[..|requests| - 1], requests[|requests| - 1];
      Allowed(l, init, key, lo, hi)
      + if r.key == key && lo <= r.now <= hi && !Refused(l, After(l, init), key, r.now) then 1 else 0
  }

  ghost predicate InOrder(requests: seq<Request>) {
    forall i, j :: 0 <= i < j < |requests| ==> requests[i].now <= requests[j].now
  }

  /** What the entry of the key says about n allowed requests in a span of one window that begins at lo. */
  predicate SpanInv(l: Limits, t: Table, key: Key, lo: int, n: nat) {
    if key !in t then n <= l.limit + 1
    else
      && 1 <= t[key].count <= l.limit + 1
      && if t[key].first >= lo then n <= l.limit + 1 + t[key].count else n <= t[key].count - 1
  }

  lemma AskKeepsSpanInv(l: Limits, t: Table, r: Request, key: Key, lo: int, n: nat)
    requires l.limit > 0 && SpanInv(l, t, key, lo, n) && r.now <= lo + l.window && (r.now < lo ==> n == 0)
    ensures SpanInv(l, Asked(l, t, r.key, r.now), key, lo,
      n + if r.key == key && lo <= r.now && !Refused(l, t, key, r.now) then 1 else 0)
  {
  }

  lemma {:induction false} NothingBefore(l: Limits, requests: seq<Request>, key: Key, lo: int, hi: int)
    requires forall i :: 0 <= i < |requests| ==> requests[i].now < lo
    ensures Allowed(l, requests, key, lo, hi) == 0
  {
    if requests != [] { NothingBefore(l, requests[..|requests| - 1], key, lo, hi); }
  }

  lemma {:induction false} RunKeepsSpanInv(l: Limits, requests: seq<Request>, key: Key, lo: int)
    requires l.limit > 0 && InOrder(requests)
    requires requests != [] ==> requests[|requests| - 1].now <= lo + l.window
    ensures SpanInv(l, After(l, requests), key, lo, Allowed(l, requests, key, lo, lo + l.window))
  {
    if requests != [] {
      var init, r := requests[..|requests| - 1], requests[|requests| - 1];
      RunKeepsSpanInv(l, init, key, lo);
      if r.now < lo { NothingBefore(l, init, key, lo, lo + l.window); }
      AskKeepsSpanInv(l, After(l, init), r, key, lo, Allowed(l, init, key, lo, lo + l.window));
    }
  }

  /** Main result: in any span of one window, ends included, at most 2 * limit + 2 requests of a key are allowed, */
  lemma {:induction false} FewAllowedInAnySpan(l: Limits, requests: seq<Request>, key: Key, lo: int)
    requires l.limit > 0 && InOrder(requests)
    ensures Allowed(l, requests, key, lo, lo + l.window) <= 2 * l.limit + 2
  {
    if requests != [] {
      var init := requests[..|requests| - 1];
      if requests[|requests| - 1].now <= lo + l.window {
        RunKeepsSpanInv(l, requests, key, lo);
      } else {
        FewAllowedInAnySpan(l, init, key, lo);
      }
    }
  }

  /** n requests of a key at one time. */
  function Burst(key: Key, now: int, n: nat): (r: seq<Request>)
    ensures |r| == n && forall i :: 0 <= i < n ==> r[i] == Request(key, now)
  {
    if n == 0 then [] else Burst(key, now, n - 1) + [Request(key, now)]
  }

  lemma {:induction false} BurstCounts(l: Limits, before: seq<Request>, key: Key, now: int, n: nat, lo: int, hi: int)
    requires key in After(l, before) && now - After(l, before)[key].first <= l.window
    requires After(l, before)[key].count + n <= l.limit + 1 && lo <= now <= hi
    ensures var t := After(l, before + Burst(key, now, n));
      key in t && t[key] == Entry(After(l, before)[key].first, After(l, before)[key].count + n)
    ensures Allowed(l, before + Burst(key, now, n), key, lo, hi) == Allowed(l, before, key, lo, hi) + n
  {
    hide After, Allowed, Burst, Refused, Asked;
    if n == 0 {
      BurstNone(before, key, now);
    } else {
      BurstCounts(l, before, key, now, n - 1, lo, hi);
      OneMore(l, before + Burst(key, now, n - 1), key, now, lo, hi);
      NotRefused(l, After(l, before + Burst(key, now, n - 1)), key, now);
      BurstGrows(before, key, now, n);
    }
  }

  lemma BurstNone(before: seq<Request>, key: Key, now: int)
    ensures before + Burst(key, now, 0) == before
  {
  }

  lemma BurstGrows(before: seq<Request>, key: Key, now: int, n: nat)
    requires n > 0
    ensures before + Burst(key, now, n) == before + Burst(key, now, n - 1) + [Request(key, now)]
  {
  }

  lemma NotRefused(l: Limits, t: Table, key: Key, now: int)
    requires key in t && now - t[key].first <= l.window && t[key].count <= l.limit
    ensures !Refused(l, t, key, now) && Asked(l, t, key, now) == t[key := Entry(t[key].first, t[key].count + 1)]
  {
  }

  lemma OneMore(l: Limits, before: seq<Request>, key: Key, now: int, lo: int, hi: int)
    ensures After(l, before + [Request(key, now)]) == Asked(l, After(l, before), key, now)
    ensures Allowed(l, before + [Request(key, now)], key, lo, hi) ==
      Allowed(l, before, key, lo, hi) + if lo <= now <= hi && !Refused(l, After(l, before), key, now) then 1 else 0
  {
    assert (before + [Request(key, now)])[..|before|] == before;
  }

  /** and so many can be: a period begun just before the span is used up in it, the request that ends the period is
      allowed, and the next period is used up at once. */
  lemma SoManyAreAllowed(l: Limits, key: Key, lo: int) returns (requests: seq<Request>)
    requires l.limit > 0 && l.window > 0
    ensures InOrder(requests) && Allowed(l, requests, key, lo, lo + l.window) == 2 * l.limit + 2
  {
    hide After, Allowed;
    var n, hi := l.limit, lo + l.window;
    var s0 := [Request(key, lo - 1)];
    var s1 := s0 + Burst(key, lo, n);
    var s2 := s1 + [Request(key, hi)];
    var s3 := s2 + [Request(key, hi)];
    requests := s3 + Burst(key, hi, n);
    OneMore(l, [], key, lo - 1, lo, hi);
    assert [] + s0 == s0;
    NothingYet(l, key, lo, hi);
    BurstCounts(l, s0, key, lo, n, lo, hi);
    OneMore(l, s1, key, hi, lo, hi);
    OneMore(l, s2, key, hi, lo, hi);
    BurstCounts(l, s3, key, hi, n, lo, hi);
  }

  lemma NothingYet(l: Limits, key: Key, lo: int, hi: int)
    ensures After(l, []) == map[] && Allowed(l, [], key, lo, hi) == 0
  {
  }

  function OfKey(requests: seq<Request>, key: Key): seq<Request> {
    if requests == [] then []
    else
      var init, r := requests[..|requests| - 1], requests[|requests| - 1];
      if r.key == key then OfKey(init, key) + [r] else OfKey(init, key)
  }

  /** Requests of other keys make no difference, and a stored count lies between 1 and limit + 1. */
  lemma {:induction false} OtherKeysDoNotMatter(l: Limits, requests: seq<Request>, key: Key, now: int)
    requires l.limit > 0
    ensures Refused(l, After(l, requests), key, now) <==> Refused(l, After(l, OfKey(requests, key)), key, now)
    ensures key in After(l, requests) <==> key in After(l, OfKey(requests, key))
    ensures key in After(l, requests) ==>
      && After(l, requests)[key] == After(l, OfKey(requests, key))[key]
      && 1 <= After(l, requests)[key].count <= l.limit + 1
  {
    if requests != [] {
      var init, r := requests[..|requests| - 1], requests[|requests| - 1];
      OtherKeysDoNotMatter(l, init, key, now);
      if r.key == key { assert OfKey(requests, key)[..|OfKey(init, key)|] == OfKey(init, key); }
    }
  }

  class ConfigServer {
    const limits: Limits
    var loadConfigLimited: Table

    constructor (limitInterval: int, interval: int)
      ensures loadConfigLimited == map[]
      ensures limitInterval > 0 ==> limits.limit == limitInterval
      ensures limitInterval <= 0 ==> limits.limit == 10
      ensures interval > 0 ==> limits.window == 60 * interval
      ensures interval <= 0 ==> limits.window == 60
    {
      limits, loadConfigLimited := Configured(limitInterval, interval), map[];
    }

    method IsLimited(key: Key, now: int) returns (limited: bool)
      modifies this
      ensures limited == Refused(limits, old(loadConfigLimited), key, now)
      ensures loadConfigLimited == Asked(limits, old(loadConfigLimited), key, now)
    {
      limited := false;
      if key in loadConfigLimited {
        var e := loadConfigLimited[key];
        if now - e.first <= limits.window {
          if e.count <= limits.limit {
            loadConfigLimited := loadConfigLimited[key := Entry(e.first, e.count + 1)];
          } else {
            limited := true;
          }
        } else {
          loadConfigLimited := loadConfigLimited - {key};
        }
      } else {
        loadConfigLimited := loadConfigLimited[key := Entry(now, 1)];
      }
    }
  }
}
