/** How a node keeps a broken server from being restarted over and over: automatic starts are recorded, and after too
    many in quick succession only one in a while is allowed. Starts ordered by hand are recorded but never refused. */
module StartLimiter {

  /** Up to maxCount starts in close succession (less than timeInterval apart) are fine; after that automatic starts
      have to keep punishInterval apart. Times are in seconds. */
  datatype Limits = Limits(timeInterval: int, maxCount: int, punishInterval: int)

  datatype Record = Record(times: seq<int>, limited: bool, count: int)

  const FRESH := Record([], false, 0)

  predicate IsLimited(l: Limits, r: Record, now: int) {
    r.limited && |r.times| > 0 && now - r.times[|r.times| - 1] < l.punishInterval
  }

  /** Record a start. */
  function Add(l: Limits, r: Record, now: int): Record {
    if r.times == [] then r.(times := [now])
    else
      var gap := now - r.times[|r.times| - 1];
      var count := if gap < l.timeInterval then r.count + 1 else r.count;
      var r1 := if r.limited && 2 * gap > 3 * l.punishInterval then FRESH else r.(count := count);
      Record(r1.times + [now], r1.limited || r1.count > l.maxCount, r1.count)
  }

  /** An attempt to start the server. */
  datatype Attempt = Attempt(now: int, auto: bool)

  predicate Starts(l: Limits, r: Record, a: Attempt) {
    !(a.auto && IsLimited(l, r, a.now))
  }

  function Try(l: Limits, r: Record, a: Attempt): Record {
    if Starts(l, r, a) then Add(l, r, a.now) else r
  }

  function After(l: Limits, attempts: seq<Attempt>): Record {
    if attempts == [] then FRESH
    else Try(l, After(l, attempts[..|attempts| - 1]), attempts[|attempts| - 1])
  }

  /** How many automatic starts there were at times from lo up to but not including hi. */
  function AutoStarts(l: Limits, attempts: seq<Attempt>, lo: int, hi: int): nat {
    if attempts == [] then 0
    else
      var init, a := attempts[..|attempts| - 1], attempts[|attempts| - 1];
      AutoStarts(l, init, lo, hi) + if a.auto && lo <= a.now < hi && Starts(l, After(l, init), a) then 1 else 0
  }

  ghost predicate InOrder(attempts: seq<Attempt>) {
    forall i, j :: 0 <= i < j < |attempts| ==> attempts[i].now <= attempts[j].now
  }

  predicate Sensible(l: Limits) {
    l.maxCount >= 0 && l.timeInterval <= l.punishInterval
  }

  function Last(r: Record): int
    requires r.times != []
  {
    r.times[|r.times| - 1]
  }

  /** What the record says about n automatic starts in the span. */
  ghost predicate SpanInv(l: Limits, r: Record, lo: int, hi: int, n: nat) {
    && n <= l.maxCount + 2
    && (r.times == [] ==> r == FRESH && n == 0)
    && (!r.limited ==> 0 <= r.count <= l.maxCount)
    && (r.times != [] && Last(r) < lo ==> n == 0)
    && (r.times != [] && lo <= Last(r) < hi && !r.limited ==> n <= r.count + 1)
  }

  lemma TryKeepsSpanInv(l: Limits, r: Record, a: Attempt, lo: int, hi: int, n: nat)
    requires Sensible(l) && hi - lo <= l.timeInterval && SpanInv(l, r, lo, hi, n)
    requires r.times != [] ==> Last(r) <= a.now
    ensures SpanInv(l, Try(l, r, a), lo, hi, n + if a.auto && lo <= a.now < hi && Starts(l, r, a) then 1 else 0)
    ensures Try(l, r, a).times != [] ==> Last(Try(l, r, a)) <= a.now
  {
  }

  lemma {:induction false} RunKeepsSpanInv(l: Limits, attempts: seq<Attempt>, lo: int, hi: int)
    requires Sensible(l) && InOrder(attempts) && hi - lo <= l.timeInterval
    ensures SpanInv(l, After(l, attempts), lo, hi, AutoStarts(l, attempts, lo, hi))
    ensures After(l, attempts).times != [] ==>
      attempts != [] && Last(After(l, attempts)) <= attempts[|attempts| - 1].now
  {
    if attempts != [] {
      var init := attempts[..|attempts| - 1];
      RunKeepsSpanInv(l, init, lo, hi);
      TryKeepsSpanInv(l, After(l, init), attempts[|attempts| - 1], lo, hi, AutoStarts(l, init, lo, hi));
    }
  }

  /** The span of length timeInterval from lo on holds at most maxCount + 2 automatic starts. */
  ghost predicate FewStarts(l: Limits, attempts: seq<Attempt>, lo: int) {
    AutoStarts(l, attempts, lo, lo + l.timeInterval) <= l.maxCount + 2
  }

  /** Main result: whatever is started by hand in between, no span shorter than timeInterval ever holds more than
      maxCount + 2 automatic starts. */
  lemma FewStartsInAnySpan(l: Limits, attempts: seq<Attempt>, lo: int)
    requires Sensible(l) && InOrder(attempts)
    ensures FewStarts(l, attempts, lo)
  {
    RunKeepsSpanInv(l, attempts, lo, lo + l.timeInterval);
  }

  function Burst(now: int, k: nat): (r: seq<Attempt>)
    ensures |r| == k && forall i :: 0 <= i < k ==> r[i] == Attempt(now, true)
  {
    if k == 0 then [] else Burst(now, k - 1) + [Attempt(now, true)]
  }

  lemma OneMore(l: Limits, init: seq<Attempt>, a: Attempt, lo: int, hi: int)
    ensures After(l, init + [a]) == Try(l, After(l, init), a)
    ensures AutoStarts(l, init + [a], lo, hi) ==
      AutoStarts(l, init, lo, hi) + if a.auto && lo <= a.now < hi && Starts(l, After(l, init), a) then 1 else 0
  {
    assert (init + [a])[..|init|] == init;
  }

  /** So many starts do happen: attempts at one and the same time. */
  lemma {:induction false} SoManyStartsHappen(l: Limits, now: int, k: nat)
    requires l.maxCount >= 0 && l.timeInterval > 0 && k <= l.maxCount + 2
    ensures AutoStarts(l, Burst(now, k), now, now + l.timeInterval) == k
    ensures var r := After(l, Burst(now, k));
      if k == 0 then r == FRESH
      else |r.times| == k && Last(r) == now && r.count == k - 1 && (r.limited <==> k - 1 > l.maxCount)
  {
    hide After, AutoStarts, Burst, Try;
    BurstGrows(now, k);
    if k == 0 {
      NothingYet(l, now, now + l.timeInterval);
    } else {
      var init := Burst(now, k - 1);
      SoManyStartsHappen(l, now, k - 1);
      OneMore(l, init, Attempt(now, true), now, now + l.timeInterval);
      BurstStarts(l, After(l, init), now, k);
    }
  }

  lemma BurstGrows(now: int, k: nat)
    ensures Burst(now, k) == if k == 0 then [] else Burst(now, k - 1) + [Attempt(now, true)]
  {
  }

  lemma NothingYet(l: Limits, lo: int, hi: int)
    ensures After(l, []) == FRESH && AutoStarts(l, [], lo, hi) == 0
  {
  }

  /** The k-th start of a burst. */
  lemma BurstStarts(l: Limits, r: Record, now: int, k: nat)
    requires l.maxCount >= 0 && l.timeInterval > 0 && 0 < k <= l.maxCount + 2
    requires if k == 1 then r == FRESH
             else |r.times| == k - 1 && Last(r) == now && r.count == k - 2 && (r.limited <==> k - 2 > l.maxCount)
    ensures var a, r' := Attempt(now, true), Try(l, r, Attempt(now, true));
      Starts(l, r, a) && |r'.times| == k && Last(r') == now && r'.count == k - 1 && (r'.limited <==> k - 1 > l.maxCount)
  {
  }

  /** After the burst one more start once the distance is kept, which is too soon if the distance is short. */
  lemma ShortDistanceFails(l: Limits) returns (attempts: seq<Attempt>)
    requires l.maxCount >= 0 && l.timeInterval > 0 && l.timeInterval > l.punishInterval
    ensures InOrder(attempts) && !FewStarts(l, attempts, 0)
  {
    hide After, AutoStarts, Burst, Try;
    var k := l.maxCount + 2;
    var late := Attempt(if l.punishInterval > 0 then l.punishInterval else 0, true);
    SoManyStartsHappen(l, 0, k);
    OneMore(l, Burst(0, k), late, 0, l.timeInterval);
    attempts := Burst(0, k) + [late];
  }

  /** Main result: the limits keep every span down exactly when timeInterval is at most punishInterval. */
  lemma SpanBoundExactly(l: Limits)
    requires l.maxCount >= 0 && l.timeInterval > 0
    ensures (forall attempts, lo :: InOrder(attempts) ==> FewStarts(l, attempts, lo))
       <==> l.timeInterval <= l.punishInterval
  {
    hide FewStarts, InOrder;
    if l.timeInterval <= l.punishInterval {
      forall attempts, lo | InOrder(attempts) ensures FewStarts(l, attempts, lo) {
        FewStartsInAnySpan(l, attempts, lo);
      }
    } else {
      var attempts := ShortDistanceFails(l);
    }
  }

  /** In every reachable state the record is limited exactly when it counts too many close starts. */
  lemma {:induction false} LimitedIffTooMany(l: Limits, attempts: seq<Attempt>)
    requires Sensible(l)
    ensures var r := After(l, attempts);
      (r.limited <==> r.count > l.maxCount) && (r.times == [] ==> r == FRESH)
  {
    if attempts != [] { LimitedIffTooMany(l, attempts[..|attempts| - 1]); }
  }

  /** How often two starts in a row lie less than the interval apart. */
  function CloseGaps(l: Limits, times: seq<int>): nat {
    if |times| < 2 then 0
    else
      CloseGaps(l, times[..|times| - 1])
      + if times[|times| - 1] - times[|times| - 2] < l.timeInterval then 1 else 0
  }

  /** The times of all starts. */
  function Started(l: Limits, attempts: seq<Attempt>): seq<int> {
    if attempts == [] then []
    else
      var init, a := attempts[..|attempts| - 1], attempts[|attempts| - 1];
      Started(l, init) + if a.auto && IsLimited(l, After(l, init), a.now) then [] else [a.now]
  }

  lemma GapsOneMore(l: Limits, times: seq<int>, now: int)
    ensures CloseGaps(l, [now]) == 0
    ensures times != [] ==>
      CloseGaps(l, times + [now])
      == CloseGaps(l, times) + if now - times[|times| - 1] < l.timeInterval then 1 else 0
  {
    assert (times + [now])[..|times|] == times;
  }

  lemma AddCounts(l: Limits, r: Record, now: int)
    requires r.count == CloseGaps(l, r.times) && (r.limited <==> r.count > l.maxCount) && l.maxCount >= 0
    requires r.times == [] ==> r == FRESH
    ensures var r' := Add(l, r, now);
      && r'.count == CloseGaps(l, r'.times) && (r'.limited <==> r'.count > l.maxCount)
      && r'.times ==
           if r.times != [] && CloseGaps(l, r.times) > l.maxCount && 2 * (now - Last(r)) > 3 * l.punishInterval
           then [now] else r.times + [now]
  {
    GapsOneMore(l, r.times, now);
    hide CloseGaps;
    assert [] + [now] == [now];
  }

  predicate IsSuffix(times: seq<int>, all: seq<int>) {
    |times| <= |all| && times == all[|all| - |times|..]
  }

  lemma SuffixGrows(all: seq<int>, times: seq<int>, now: int)
    requires IsSuffix(times, all)
    ensures IsSuffix(times + [now], all + [now]) && IsSuffix([now], all + [now])
  {
  }

  /** The record holds the latest of all starts, counts those that follow closely on the one before, and is limited
      exactly if there are too many of these. */
  ghost predicate FromHistory(l: Limits, all: seq<int>, r: Record) {
    && IsSuffix(r.times, all)
    && (r.times == [] ==> all == [] && r == FRESH)
    && r.count == CloseGaps(l, r.times)
    && (r.limited <==> CloseGaps(l, r.times) > l.maxCount)
  }

  lemma TryKeepsHistory(l: Limits, all: seq<int>, r: Record, a: Attempt)
    requires l.maxCount >= 0 && FromHistory(l, all, r)
    ensures FromHistory(l, all + (if a.auto && IsLimited(l, r, a.now) then [] else [a.now]), Try(l, r, a))
  {
    if a.auto && IsLimited(l, r, a.now) {
      assert all + [] == all;
    } else {
      AddCounts(l, r, a.now);
      SuffixGrows(all, r.times, a.now);
      hide Add, CloseGaps, IsLimited, IsSuffix;
    }
  }

  /** Main result, over every run: so it is in every reachable state, */
  lemma {:induction false} RecordIsHistory(l: Limits, attempts: seq<Attempt>)
    requires Sensible(l)
    ensures FromHistory(l, Started(l, attempts), After(l, attempts))
  {
    hide FromHistory, Try, IsLimited;
    if attempts == [] {
      NothingStarted(l);
    } else {
      var init, a := attempts[..|attempts| - 1], attempts[|attempts| - 1];
      RecordIsHistory(l, init);
      TryKeepsHistory(l, Started(l, init), After(l, init), a);
    }
  }

  lemma NothingStarted(l: Limits)
    requires Sensible(l)
    ensures FromHistory(l, Started(l, []), After(l, []))
  {
  }

  /** and a start begins a new record exactly when there have been too many and it comes more than one and a half times
      the punishment interval after the last. */
  lemma StartBeginsRecord(l: Limits, attempts: seq<Attempt>, now: int)
    requires Sensible(l) && After(l, attempts).times != []
    ensures var r := After(l, attempts);
      After(l, attempts + [Attempt(now, false)]).times ==
        if CloseGaps(l, r.times) > l.maxCount && 2 * (now - Last(r)) > 3 * l.punishInterval
        then [now] else r.times + [now]
  {
    RecordIsHistory(l, attempts);
    AddCounts(l, After(l, attempts), now);
    OneMore(l, attempts, Attempt(now, false), 0, 0);
    hide After, Add;
  }

  ghost predicate StartedAt(l: Limits, attempts: seq<Attempt>, i: nat)
    requires i < |attempts|
  {
    Starts(l, After(l, attempts[..i]), attempts[i])
  }

  /** Attempts i and j start the server, and none in between does. */
  ghost predicate Consecutive(l: Limits, attempts: seq<Attempt>, i: nat, j: nat) {
    && i < j < |attempts| && StartedAt(l, attempts, i) && StartedAt(l, attempts, j)
    && forall k: nat :: i < k < j ==> !StartedAt(l, attempts, k)
  }

  lemma {:induction false} NothingSince(l: Limits, attempts: seq<Attempt>, i: nat, j: nat)
    requires i < j <= |attempts| && StartedAt(l, attempts, i)
    requires forall k: nat :: i < k < j ==> !StartedAt(l, attempts, k)
    ensures After(l, attempts[..j]) == After(l, attempts[..i + 1])
    ensures After(l, attempts[..j]).times != [] && Last(After(l, attempts[..j])) == attempts[i].now
  {
    if j == i + 1 {
      assert attempts[..j][..i] == attempts[..i];
      OneMoreAttempt(l, attempts, i);
    } else {
      NothingSince(l, attempts, i, j - 1);
      OneMoreAttempt(l, attempts, j - 1);
      assert !StartedAt(l, attempts, j - 1);
    }
  }

  lemma OneMoreAttempt(l: Limits, attempts: seq<Attempt>, i: nat)
    requires i < |attempts|
    ensures After(l, attempts[..i + 1]) == Try(l, After(l, attempts[..i]), attempts[i])
  {
    assert attempts[..i + 1][..i] == attempts[..i];
  }

  /** Main result, over whole runs: of two consecutive starts with the record limited in between, the second keeps the
      punishment distance if it is automatic, and it lifts the limitation exactly if it comes more than one and a half
      times the distance later. */
  lemma LimitedStartsKeepApart(l: Limits, attempts: seq<Attempt>, i: nat, j: nat)
    requires Sensible(l) && Consecutive(l, attempts, i, j) && After(l, attempts[..i + 1]).limited
    ensures attempts[j].auto ==> attempts[j].now - attempts[i].now >= l.punishInterval
    ensures After(l, attempts[..j + 1]).limited <==> 2 * (attempts[j].now - attempts[i].now) <= 3 * l.punishInterval
  {
    NothingSince(l, attempts, i, j);
    OneMoreAttempt(l, attempts, j);
    LimitedIffTooMany(l, attempts[..j]);
    hide After;
  }

  class Activator {
    var limits: Limits
    var activingRecord: seq<int>
    var limited: bool
    var curCount: int

    ghost function Value(): Record
      reads this
    {
      Record(activingRecord, limited, curCount)
    }

    constructor (l: Limits)
      ensures limits == l && Value() == FRESH
    {
      limits, activingRecord, limited, curCount := l, [], false, 0;
    }

    method IsActivatingLimited(now: int) returns (r: bool)
      ensures r == IsLimited(limits, Value(), now)
    {
      var len := |activingRecord|;
      return limited && len > 0 && now - activingRecord[len - 1] < limits.punishInterval;
    }

    method AddActivatingRecord(now: int)
      modifies this
      ensures Value() == Add(limits, old(Value()), now) && limits == old(limits)
    {
      var len := |activingRecord|;
      if len > 0 {
        var last := activingRecord[len - 1];
        if now - last < limits.timeInterval {
          curCount := curCount + 1;
        }
        if limited && 2 * (now - last) > 3 * limits.punishInterval {
          curCount := 0;
          limited := false;
          activingRecord := [];
        }
        if curCount > limits.maxCount {
          limited := true;
        }
      }
      activingRecord := activingRecord + [now];
    }

    /** New limits start a new record. */
    method SetLimitInfo(l: Limits)
      modifies this
      ensures limits == l && Value() == FRESH
    {
      limits := l;
      activingRecord, limited, curCount := [], false, 0;
    }
  }
}
