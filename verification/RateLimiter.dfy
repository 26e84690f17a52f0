/**
 The fixed-window rate limiter (src/framework/RESTAPI_RateLimiter.h). A key is the hash of path and
 client address; the cache is taken to be large and long-lived enough not to evict entries.
 */
module RateLimiter {

  datatype Entry = Entry(start: int, count: nat)

  type Cache = map<int, Entry>

  /** One request: its key and the clock in milliseconds. */
  datatype Call = Call(key: int, now: int)

  /** The cache after a request. */
  function Touched(cache: Cache, c: Call, period: int): Cache
  {
    if c.key in cache && c.now - cache[c.key].start < period
    then cache[c.key := Entry(cache[c.key].start, cache[c.key].count + 1)]
    else cache[c.key := Entry(c.now, 1)]
  }

  /** Whether the request is refused. */
  predicate Limited(cache: Cache, c: Call, period: int, maxCalls: int)
  {
    c.key in cache && c.now - cache[c.key].start < period && cache[c.key].count + 1 > maxCalls
  }

  class RESTAPI_RateLimiter {
    var Entries: Cache

    constructor ()
      ensures Entries == map[]
    {
      Entries := map[];
    }

    method IsRateLimited(key: int, now: int, period: int, maxCalls: int) returns (limited: bool)
      modifies this
      ensures Entries == Touched(old(Entries), Call(key, now), period)
      ensures limited <==> Limited(old(Entries), Call(key, now), period, maxCalls)
    {
      if key !in Entries {
        Entries := Entries[key := Entry(now, 1)];
        return false;
      }
      var e := Entries[key];
      if now - e.start < period {
        e := Entry(e.start, e.count + 1);
        Entries := Entries[key := e];
        if e.count > maxCalls {
          return true;
        }
        return false;
      }
      e := Entry(now, 1);
      Entries := Entries[key := e];
      return false;
    }
  }

  /** The cache after a run of requests, all under the same period. */
  function After(calls: seq<Call>, period: int): Cache
  {
    if calls == [] then map[] else Touched(After(calls[..|calls| - 1], period), calls[|calls| - 1], period)
  }

  /** Whether request n of a run was let through. */
  predicate Admitted(calls: seq<Call>, n: nat, period: int, maxCalls: int)
    requires n < |calls|
  {
    !Limited(After(calls[..n], period), calls[n], period, maxCalls)
  }

  predicate ClockForward(calls: seq<Call>)
  {
    forall i, j | 0 <= i < j < |calls| :: calls[i].now <= calls[j].now
  }

  /** How many of the requests for `key` with lo <= time < hi were let through. */
  function AdmittedIn(calls: seq<Call>, key: int, lo: int, hi: int, period: int, maxCalls: int): nat
  {
    if calls == [] then 0
    else
      var n := |calls| - 1;
      AdmittedIn(calls[..n], key, lo, hi, period, maxCalls) +
      if calls[n].key == key && lo <= calls[n].now < hi && Admitted(calls, n, period, maxCalls) then 1 else 0
  }

  /** What one window lets through: its first request always passes. */
  function Cap(maxCalls: int): nat
  {
    if maxCalls < 1 then 1 else maxCalls
  }

  function Min(a: nat, b: nat): nat
  {
    if a < b then a else b
  }

  lemma {:induction false} Monotone(calls: seq<Call>, key: int, lo: int, hi: int, lo': int, hi': int,
                                    period: int, maxCalls: int)
    requires lo' <= lo && hi <= hi'
    ensures AdmittedIn(calls, key, lo, hi, period, maxCalls) <= AdmittedIn(calls, key, lo', hi', period, maxCalls)
  {
    if calls != [] {
      Monotone(calls[..|calls| - 1], key, lo, hi, lo', hi', period, maxCalls);
    }
  }

  /** Nothing is admitted in an interval that starts after all requests of the key. */
  lemma {:induction false} NothingLater(calls: seq<Call>, key: int, lo: int, hi: int, period: int, maxCalls: int)
    requires forall i | 0 <= i < |calls| :: calls[i].key == key ==> calls[i].now < lo
    ensures AdmittedIn(calls, key, lo, hi, period, maxCalls) == 0
  {
    if calls != [] {
      NothingLater(calls[..|calls| - 1], key, lo, hi, period, maxCalls);
    }
  }

  /** A window starts at the time of some request. */
  lemma {:induction false} EntryFromCall(calls: seq<Call>, key: int, period: int)
    requires key in After(calls, period)
    ensures exists i | 0 <= i < |calls| :: calls[i].now == After(calls, period)[key].start
  {
    var n := |calls| - 1;
    if After(calls, period)[key] != Entry(calls[n].now, 1) {
      EntryFromCall(calls[..n], key, period);
      var i :| 0 <= i < n && calls[..n][i].now == After(calls[..n], period)[key].start;
      assert calls[i].now == After(calls, period)[key].start;
    }
  }

  /** The window of a key: every request of the key came before its end. */
  lemma {:induction false} WindowTimes(calls: seq<Call>, key: int, period: int)
    requires ClockForward(calls) && period > 0
    ensures key !in After(calls, period) ==> forall i | 0 <= i < |calls| :: calls[i].key != key
    ensures key in After(calls, period) ==>
      var e := After(calls, period)[key];
      && e.count >= 1
      && forall i | 0 <= i < |calls| :: calls[i].key == key ==> calls[i].now < e.start + period
  {
    if calls != [] {
      WindowTimes(calls[..|calls| - 1], key, period);
    }
  }

  /**
   The current window of a key has let through exactly as many requests as its count allows, all but its
   first after its start; and together with the period before its start at most one further window's
   worth less that window's first.
   */
  lemma {:induction false} WindowCounts(calls: seq<Call>, key: int, hi: int, period: int, maxCalls: int)
    requires ClockForward(calls) && period > 0 && key in After(calls, period)
    requires forall i | 0 <= i < |calls| :: calls[i].now < hi
    ensures var e := After(calls, period)[key]; var cap := Cap(maxCalls);
      && AdmittedIn(calls, key, e.start, hi, period, maxCalls) == Min(e.count, cap)
      && AdmittedIn(calls, key, e.start + 1, hi, period, maxCalls) + 1 <= Min(e.count, cap)
      && AdmittedIn(calls, key, e.start - period + 1, hi, period, maxCalls) + 1 <= cap + Min(e.count, cap)
  {
    var n := |calls| - 1;
    var before, c := calls[..n], calls[n];
    var was := After(before, period);
    WindowTimes(before, key, period);
    if key in was {
      EntryFromCall(before, key, period);
      WindowCounts(before, key, hi, period, maxCalls);
      if c.key == key && c.now - was[key].start >= period {
        NothingLater(before, key, c.now, hi, period, maxCalls);
        Monotone(before, key, c.now + 1, hi, c.now, hi, period, maxCalls);
        Monotone(before, key, c.now - period + 1, hi, was[key].start + 1, hi, period, maxCalls);
      }
    } else {
      NothingLater(before, key, c.now, hi, period, maxCalls);
      NothingLater(before, key, c.now + 1, hi, period, maxCalls);
      NothingLater(before, key, c.now - period + 1, hi, period, maxCalls);
    }
  }

  /** Every interval of one period's length lets through at most two windows' worth of any key, less one. */
  lemma {:induction false} AnyIntervalIsBounded(calls: seq<Call>, key: int, t: int, period: int, maxCalls: int)
    requires ClockForward(calls)
    ensures AdmittedIn(calls, key, t, t + period, period, maxCalls) <= 2 * Cap(maxCalls) - 1
  {
    if calls != [] {
      var n := |calls| - 1;
      AnyIntervalIsBounded(calls[..n], key, t, period, maxCalls);
      if calls[n].key == key && period > 0 {
        var e := After(calls, period)[key];
        if t > e.start - period {
          var hi := if t + period > calls[n].now then t + period else calls[n].now + 1;
          WindowCounts(calls, key, hi, period, maxCalls);
          Monotone(calls, key, t, t + period, e.start - period + 1, hi, period, maxCalls);
        } else {
          EntryFromCall(calls, key, period);
        }
      }
    }
  }

  /** The same request n times at one moment, after other requests. */
  function Burst(calls: seq<Call>, c: Call, n: nat): seq<Call>
  {
    if n == 0 then calls else Burst(calls, c, n - 1) + [c]
  }

  lemma {:induction false} BurstClock(calls: seq<Call>, c: Call, n: nat)
    requires ClockForward(calls) && forall i | 0 <= i < |calls| :: calls[i].now <= c.now
    ensures ClockForward(Burst(calls, c, n))
    ensures forall i | 0 <= i < |Burst(calls, c, n)| :: Burst(calls, c, n)[i].now <= c.now
  {
    if n > 0 { BurstClock(calls, c, n - 1); }
  }

  lemma OneMoreCall(calls: seq<Call>, c: Call, lo: int, hi: int, period: int, maxCalls: int)
    ensures After(calls + [c], period) == Touched(After(calls, period), c, period)
    ensures AdmittedIn(calls + [c], c.key, lo, hi, period, maxCalls)
         == AdmittedIn(calls, c.key, lo, hi, period, maxCalls)
            + if lo <= c.now < hi && !Limited(After(calls, period), c, period, maxCalls) then 1 else 0
  {
    assert (calls + [c])[..|calls|] == calls;
  }

  /** A request within the running window of its key, which still has room. */
  lemma OneCallInWindow(calls: seq<Call>, c: Call, lo: int, hi: int, period: int, maxCalls: int)
    requires c.key in After(calls, period) && c.now - After(calls, period)[c.key].start < period && lo <= c.now < hi
    requires After(calls, period)[c.key].count < maxCalls
    ensures var e := After(calls, period)[c.key];
      c.key in After(calls + [c], period) && After(calls + [c], period)[c.key] == Entry(e.start, e.count + 1)
    ensures AdmittedIn(calls + [c], c.key, lo, hi, period, maxCalls)
         == AdmittedIn(calls, c.key, lo, hi, period, maxCalls) + 1
  {
    OneMoreCall(calls, c, lo, hi, period, maxCalls);
  }

  /** A burst within the running window of its key: all let through as long as the window has room. */
  lemma {:induction false} BurstInWindow(calls: seq<Call>, c: Call, n: nat, lo: int, hi: int,
                                         period: int, maxCalls: int)
    requires c.key in After(calls, period) && c.now - After(calls, period)[c.key].start < period && lo <= c.now < hi
    requires After(calls, period)[c.key].count + n <= maxCalls
    ensures var e := After(calls, period)[c.key];
      && c.key in After(Burst(calls, c, n), period)
      && After(Burst(calls, c, n), period)[c.key] == Entry(e.start, e.count + n)
    ensures AdmittedIn(Burst(calls, c, n), c.key, lo, hi, period, maxCalls)
         == AdmittedIn(calls, c.key, lo, hi, period, maxCalls) + n
  {
    if n > 0 {
      BurstInWindow(calls, c, n - 1, lo, hi, period, maxCalls);
      var prev := Burst(calls, c, n - 1);
      OneCallInWindow(prev, c, lo, hi, period, maxCalls);
      assert Burst(calls, c, n) == prev + [c];
    }
  }

  /** A burst that opens a window of its key. */
  lemma BurstOpensWindow(calls: seq<Call>, c: Call, n: nat, lo: int, hi: int, period: int, maxCalls: int)
    requires period > 0 && n + 1 <= maxCalls && lo <= c.now < hi
    requires c.key in After(calls, period) ==> c.now - After(calls, period)[c.key].start >= period
    ensures AdmittedIn(Burst(calls + [c], c, n), c.key, lo, hi, period, maxCalls)
         == AdmittedIn(calls, c.key, lo, hi, period, maxCalls) + 1 + n
  {
    OneMoreCall(calls, c, lo, hi, period, maxCalls);
    BurstInWindow(calls + [c], c, n, lo, hi, period, maxCalls);
  }

  /** One request opens a window, which is filled at its very end. */
  function LateWindow(key: int, period: int, maxCalls: nat): seq<Call>
    requires maxCalls >= 1
  {
    Burst([Call(key, 0)], Call(key, period - 1), maxCalls - 1)
  }

  /** And the next window is filled as soon as it opens. */
  function TwoWindows(key: int, period: int, maxCalls: nat): seq<Call>
    requires maxCalls >= 1
  {
    Burst(LateWindow(key, period, maxCalls) + [Call(key, period)], Call(key, period), maxCalls - 1)
  }

  lemma LateWindowCounts(key: int, period: int, maxCalls: nat)
    requires maxCalls >= 1 && period >= 2
    ensures key in After(LateWindow(key, period, maxCalls), period)
    ensures After(LateWindow(key, period, maxCalls), period)[key].start == 0
    ensures AdmittedIn(LateWindow(key, period, maxCalls), key, period - 1, period - 1 + period, period, maxCalls)
         == maxCalls - 1
  {
    var lo, hi := period - 1, period - 1 + period;
    OneMoreCall([], Call(key, 0), lo, hi, period, maxCalls);
    assert [] + [Call(key, 0)] == [Call(key, 0)];
    BurstInWindow([Call(key, 0)], Call(key, period - 1), maxCalls - 1, lo, hi, period, maxCalls);
  }

  lemma TwoWindowsClock(key: int, period: int, maxCalls: nat)
    requires maxCalls >= 1 && period >= 2
    ensures ClockForward(TwoWindows(key, period, maxCalls))
  {
    var late := LateWindow(key, period, maxCalls);
    BurstClock([Call(key, 0)], Call(key, period - 1), maxCalls - 1);
    BurstClock(late + [Call(key, period)], Call(key, period), maxCalls - 1);
  }

  lemma SecondWindow(late: seq<Call>, next: Call, lo: int, hi: int, period: int, maxCalls: nat)
    requires maxCalls >= 1 && period > 0 && lo <= next.now < hi && next.key in After(late, period)
    requires next.now - After(late, period)[next.key].start >= period
    requires AdmittedIn(late, next.key, lo, hi, period, maxCalls) == maxCalls - 1
    ensures AdmittedIn(Burst(late + [next], next, maxCalls - 1), next.key, lo, hi, period, maxCalls)
         == 2 * Cap(maxCalls) - 1
  {
    BurstOpensWindow(late, next, maxCalls - 1, lo, hi, period, maxCalls);
  }

  /** The bound is reached, for every key, every limit and every period of at least two milliseconds. */
  lemma BoundIsReached(key: int, period: int, maxCalls: nat)
    requires maxCalls >= 1 && period >= 2
    ensures ClockForward(TwoWindows(key, period, maxCalls))
    ensures AdmittedIn(TwoWindows(key, period, maxCalls), key, period - 1, period - 1 + period, period, maxCalls)
         == 2 * Cap(maxCalls) - 1
  {
    TwoWindowsClock(key, period, maxCalls);
    LateWindowCounts(key, period, maxCalls);
    var late := LateWindow(key, period, maxCalls);
    SecondWindow(late, Call(key, period), period - 1, period - 1 + period, period, maxCalls);
  }

  /** A request is refused only if a full window's worth of its key was let through less than a period ago. */
  lemma RefusedOnlyWhenFull(calls: seq<Call>, n: nat, period: int, maxCalls: int)
    requires ClockForward(calls) && n < |calls| && !Admitted(calls, n, period, maxCalls)
    ensures var now := calls[n].now;
      AdmittedIn(calls[..n], calls[n].key, now - period + 1, now + 1, period, maxCalls) >= Cap(maxCalls)
  {
    var before, c := calls[..n], calls[n];
    var e := After(before, period)[c.key];
    if period <= 0 {
      EntryFromCall(before, c.key, period);
      assert false;
    } else {
      WindowTimes(before, c.key, period);
      WindowCounts(before, c.key, c.now + 1, period, maxCalls);
      Monotone(before, c.key, e.start, c.now + 1, c.now - period + 1, c.now + 1, period, maxCalls);
    }
  }

  /** The requests of one key alone. */
  function OnlyKey(calls: seq<Call>, key: int): seq<Call>
  {
    if calls == [] then []
    else
      var n := |calls| - 1;
      OnlyKey(calls[..n], key) + if calls[n].key == key then [calls[n]] else []
  }

  lemma {:induction false} EntryOfKey(calls: seq<Call>, key: int, period: int)
    ensures key in After(calls, period) <==> key in After(OnlyKey(calls, key), period)
    ensures key in After(calls, period) ==> After(calls, period)[key] == After(OnlyKey(calls, key), period)[key]
  {
    if calls != [] {
      var n := |calls| - 1;
      EntryOfKey(calls[..n], key, period);
      var own := OnlyKey(calls[..n], key);
      if calls[n].key == key {
        var all := own + [calls[n]];
        assert OnlyKey(calls, key) == all && all[..|all| - 1] == own;
        assert After(all, period) == Touched(After(own, period), calls[n], period);
      } else {
        assert OnlyKey(calls, key) == own;
      }
    }
  }

  /** Requests of other keys have no influence: a key's verdicts follow from its own requests. */
  lemma OtherKeysDoNotMatter(calls: seq<Call>, key: int, now: int, period: int, maxCalls: int)
    ensures Limited(After(calls, period), Call(key, now), period, maxCalls)
       <==> Limited(After(OnlyKey(calls, key), period), Call(key, now), period, maxCalls)
  {
    EntryOfKey(calls, key, period);
  }
}
