/**
  The fixed-window rate limiter. The reference decides each key on its own request times and never sweeps;
  the class sweeps stale buckets lazily and is proved to decide alike.
 */
module RateLimiter {
  import opened Basics

  datatype Bucket = Bucket(count: int, start: real)

  datatype Limits = Limits(limit: int, window: real)

  // ----- The decision on one key

  /** `allow` on the key's bucket; a denial writes nothing. */
  function Decide(l: Limits, o: Option<Bucket>, now: real): (r: (bool, Option<Bucket>))
  {
    var b := if o.Some? then o.value else Bucket(0, now);
    if now - b.start >= l.window then (true, Some(Bucket(1, now)))
    else if b.count >= l.limit then (false, o)
    else (true, Some(Bucket(b.count + 1, b.start)))
  }

  /** The bucket after the requests of one key, never swept. */
  function State(l: Limits, times: seq<real>): Option<Bucket> {
    if times == [] then None else Decide(l, State(l, times[..|times| - 1]), times[|times| - 1]).1
  }

  /** The decision on a request at `now` after the earlier requests of the same key. */
  predicate Allowed(l: Limits, times: seq<real>, now: real) {
    Decide(l, State(l, times), now).0
  }

  predicate Nondecreasing(times: seq<real>) {
    forall i, j :: 0 <= i <= j < |times| ==> times[i] <= times[j]
  }

  /** Admitted requests with `from <= time < until`. */
  function Admitted(l: Limits, times: seq<real>, from: real, until: real): nat {
    if times == [] then 0
    else
      var front, now := times[..|times| - 1], times[|times| - 1];
      Admitted(l, front, from, until) + if Allowed(l, front, now) && from <= now < until then 1 else 0
  }

  lemma {:induction false} NoneBefore(l: Limits, times: seq<real>, from: real, until: real)
    requires forall i | 0 <= i < |times| :: times[i] < from
    ensures Admitted(l, times, from, until) == 0
  {
    if times != [] {
      NoneBefore(l, times[..|times| - 1], from, until);
    }
  }

  lemma Prefix(times: seq<real>)
    requires times != [] && Nondecreasing(times)
    ensures Nondecreasing(times[..|times| - 1])
    ensures forall i | 0 <= i < |times| :: times[i] <= times[|times| - 1]
  {
  }

  // ----- Windows

  predicate Positive(l: Limits) {
    l.limit >= 1 && l.window > 0.0
  }

  /** The start times of the windows opened so far. */
  function Starts(l: Limits, times: seq<real>): seq<real> {
    if times == [] then []
    else
      var front, now := times[..|times| - 1], times[|times| - 1];
      var o := State(l, front);
      if o.None? || now - o.value.start >= l.window then Starts(l, front) + [now] else Starts(l, front)
  }

  /** The bucket is the last window; it is not over at the last request and counts what was admitted in it. */
  lemma {:induction false} CurrentWindow(l: Limits, times: seq<real>)
    requires Positive(l) && Nondecreasing(times)
    ensures State(l, times).None? <==> times == []
    ensures times != [] ==>
              var b, starts := State(l, times).value, Starts(l, times);
              && 1 <= b.count <= l.limit && starts != [] && starts[|starts| - 1] == b.start
              && b.start <= times[|times| - 1] < b.start + l.window
              && Admitted(l, times, b.start, b.start + l.window) == b.count
  {
    if times != [] {
      var front, now := times[..|times| - 1], times[|times| - 1];
      Prefix(times);
      CurrentWindow(l, front);
      if front == [] || now - State(l, front).value.start >= l.window {
        if front != [] {
          assert front[|front| - 1] == times[|times| - 2];
        }
        NoneBefore(l, front, now, now + l.window);
      }
    }
  }

  /** Window starts lie at least one window apart. */
  lemma {:induction false} StartsApart(l: Limits, times: seq<real>, i: nat, j: nat)
    requires Positive(l) && Nondecreasing(times) && i < j < |Starts(l, times)|
    ensures Starts(l, times)[i] + l.window <= Starts(l, times)[j]
  {
    hide State, Decide;
    var front := times[..|times| - 1];
    Prefix(times);
    CurrentWindow(l, front);
    if j < |Starts(l, front)| {
      StartsApart(l, front, i, j);
    } else if i < j - 1 {
      StartsApart(l, front, i, j - 1);
    }
  }

  /** Each window admits at least its opening request and at most `limit`. */
  lemma {:induction false} WindowAdmits(l: Limits, times: seq<real>, i: nat)
    requires Positive(l) && Nondecreasing(times) && i < |Starts(l, times)|
    ensures 1 <= Admitted(l, times, Starts(l, times)[i], Starts(l, times)[i] + l.window) <= l.limit
  {
    CurrentWindow(l, times);
    if i < |Starts(l, times)| - 1 {
      var front := times[..|times| - 1];
      Prefix(times);
      StartsApart(l, times, i, |Starts(l, times)| - 1);
      hide State, Decide;
      WindowAdmits(l, front, i);
    }
  }

  /**
    A request is denied exactly when the window opened last began less than one window ago and has admitted
    exactly `limit` requests.
   */
  lemma DeniedExactly(l: Limits, times: seq<real>, now: real)
    requires Positive(l) && Nondecreasing(times + [now])
    ensures !Allowed(l, times, now) <==>
            var starts := Starts(l, times);
            && starts != [] && now < starts[|starts| - 1] + l.window
            && Admitted(l, times, starts[|starts| - 1], starts[|starts| - 1] + l.window) == l.limit
  {
    hide State, Starts;
    assert (times + [now])[..|times|] == times;
    Prefix(times + [now]);
    CurrentWindow(l, times);
    NoStarts(l, times);
  }

  lemma NoStarts(l: Limits, times: seq<real>)
    ensures times == [] ==> Starts(l, times) == []
  {
  }

  // ----- The burst bound

  /** What is admitted in `[a, a + window)`, by where the current window started. */
  lemma {:induction false} BurstInvariant(l: Limits, times: seq<real>, a: real)
    requires Positive(l) && Nondecreasing(times) && times != []
    ensures State(l, times).Some?
    ensures var b, n := State(l, times).value, Admitted(l, times, a, a + l.window);
            && (b.start >= a + l.window ==> n <= 2 * l.limit - 1)
            && (a <= b.start < a + l.window ==> n <= l.limit - 1 + b.count)
            && (b.start < a ==> n <= b.count - 1)
  {
    var front, now := times[..|times| - 1], times[|times| - 1];
    Prefix(times);
    CurrentWindow(l, times);
    CurrentWindow(l, front);
    if front != [] {
      BurstInvariant(l, front, a);
      if now < a {
        NoneBefore(l, times, a, a + l.window);
      }
    }
  }

  /** Any half-open interval of one window length admits at most 2 * limit - 1 requests of a key. */
  lemma BurstBound(l: Limits, times: seq<real>, a: real)
    requires Positive(l) && Nondecreasing(times)
    ensures Admitted(l, times, a, a + l.window) <= 2 * l.limit - 1
  {
    if times != [] {
      hide Admitted, State;
      BurstInvariant(l, times, a);
      CurrentWindow(l, times);
    }
  }

  function Repeated(n: nat, t: real): (r: seq<real>)
    ensures |r| == n && forall i | 0 <= i < n :: r[i] == t
  {
    seq(n, _ => t)
  }

  /** Filling up an open window admits every request. */
  lemma {:induction false} Filled(l: Limits, times: seq<real>, n: nat, t: real, from: real, until: real)
    requires State(l, times).Some? && t - State(l, times).value.start < l.window
             && State(l, times).value.count + n <= l.limit
    requires from <= t < until
    ensures State(l, times + Repeated(n, t))
            == Some(Bucket(State(l, times).value.count + n, State(l, times).value.start))
    ensures Admitted(l, times + Repeated(n, t), from, until) == Admitted(l, times, from, until) + n
  {
    hide State, Admitted;
    if n == 0 {
      assert times + Repeated(n, t) == times;
    } else {
      var front := times + Repeated(n - 1, t);
      Filled(l, times, n - 1, t, from, until);
      assert front + [t] == times + Repeated(n, t);
      Grows(l, front, t, from, until);
    }
  }

  lemma Grows(l: Limits, times: seq<real>, now: real, from: real, until: real)
    ensures State(l, times + [now]) == Decide(l, State(l, times), now).1
    ensures Admitted(l, times + [now], from, until)
            == Admitted(l, times, from, until) + if Allowed(l, times, now) && from <= now < until then 1 else 0
  {
    hide Decide;
    assert (times + [now])[..|times|] == times;
  }

  lemma Reopened(l: Limits, times: seq<real>, now: real, from: real, until: real)
    requires State(l, times).None? || now - State(l, times).value.start >= l.window
    requires Positive(l)
    ensures State(l, times + [now]) == Some(Bucket(1, now))
    ensures Admitted(l, times + [now], from, until)
            == Admitted(l, times, from, until) + if from <= now < until then 1 else 0
  {
    assert (times + [now])[..|times|] == times;
  }

  /** The bound is reached: one early request, the rest of that window late, then the whole next window. */
  lemma BurstReached(l: Limits) returns (times: seq<real>, a: real)
    requires Positive(l)
    ensures Nondecreasing(times) && Admitted(l, times, a, a + l.window) == 2 * l.limit - 1
  {
    hide State, Admitted;
    var w := l.window;
    a := w / 2.0;
    NoneBefore(l, [], a, a + w);
    assert State(l, []).None? by {
      NoState(l);
    }
    Reopened(l, [], 0.0, a, a + w);
    var first := [] + [0.0];
    Filled(l, first, l.limit - 1, a, a, a + w);
    var second := first + Repeated(l.limit - 1, a);
    Reopened(l, second, w, a, a + w);
    var third := second + [w];
    Filled(l, third, l.limit - 1, w, a, a + w);
    times := third + Repeated(l.limit - 1, w);
  }

  lemma NoState(l: Limits)
    ensures State(l, []).None?
  {
  }

  // ----- Many keys, with sweeping

  datatype Request = Request(key: string, now: real)

  function TimesOf(trace: seq<Request>, key: string): seq<real> {
    if trace == [] then []
    else
      var last := trace[|trace| - 1];
      TimesOf(trace[..|trace| - 1], key) + if last.key == key then [last.now] else []
  }

  predicate Clocked(trace: seq<Request>) {
    forall i, j :: 0 <= i <= j < |trace| ==> trace[i].now <= trace[j].now
  }

  lemma {:induction false} TimesClocked(trace: seq<Request>, key: string)
    requires Clocked(trace)
    ensures Nondecreasing(TimesOf(trace, key))
    ensures trace != [] ==>
              forall i | 0 <= i < |TimesOf(trace, key)| :: TimesOf(trace, key)[i] <= trace[|trace| - 1].now
  {
    if trace != [] {
      TimesClocked(trace[..|trace| - 1], key);
    }
  }

  /** In every run, a key has at most 2 * limit - 1 requests admitted per interval of one window length. */
  lemma RunBound(l: Limits, trace: seq<Request>, key: string, a: real)
    requires Positive(l) && Clocked(trace)
    ensures Admitted(l, TimesOf(trace, key), a, a + l.window) <= 2 * l.limit - 1
  {
    TimesClocked(trace, key);
    BurstBound(l, TimesOf(trace, key), a);
  }

  function Lookup(buckets: map<string, Bucket>, key: string): Option<Bucket> {
    if key in buckets then Some(buckets[key]) else None
  }

  /** The bucket is the reference's, or was swept after its window was over. */
  predicate Agrees(l: Limits, o: Option<Bucket>, r: Option<Bucket>, now: real) {
    o == r || (o.None? && now - r.value.start >= l.window)
  }

  /** Without a positive limit no bucket ever opens, unless windows are empty. */
  lemma {:induction false} NeverOpens(l: Limits, times: seq<real>)
    requires l.limit <= 0 && l.window > 0.0
    ensures State(l, times).None?
  {
    if times != [] {
      NeverOpens(l, times[..|times| - 1]);
    }
  }

  lemma DecideAlike(l: Limits, o: Option<Bucket>, times: seq<real>, now: real)
    requires Agrees(l, o, State(l, times), now)
    ensures Decide(l, o, now).0 == Allowed(l, times, now)
    ensures Agrees(l, Decide(l, o, now).1, State(l, times + [now]), now)
  {
    assert (times + [now])[..|times|] == times;
    if l.limit <= 0 && l.window > 0.0 {
      NeverOpens(l, times);
    }
  }

  function Latest(trace: seq<Request>): real {
    if trace == [] then 0.0 else trace[|trace| - 1].now
  }

  ghost predicate Consistent(l: Limits, buckets: map<string, Bucket>, trace: seq<Request>, now: real) {
    forall key :: Agrees(l, Lookup(buckets, key), State(l, TimesOf(trace, key)), now)
  }

  lemma Later(l: Limits, buckets: map<string, Bucket>, trace: seq<Request>, now: real)
    requires Consistent(l, buckets, trace, Latest(trace)) && (trace != [] ==> Latest(trace) <= now)
    ensures Consistent(l, buckets, trace, now)
  {
    hide Decide;
    forall key ensures Agrees(l, Lookup(buckets, key), State(l, TimesOf(trace, key)), now) {
      assert Agrees(l, Lookup(buckets, key), State(l, TimesOf(trace, key)), Latest(trace));
    }
  }

  predicate OverAt(l: Limits, b: Bucket, now: real) {
    now - b.start >= l.window
  }

  function SweptAt(l: Limits, buckets: map<string, Bucket>, now: real): map<string, Bucket> {
    map key | key in buckets && !OverAt(l, buckets[key], now) :: buckets[key]
  }

  lemma SweepInvisible(l: Limits, buckets: map<string, Bucket>, trace: seq<Request>, now: real)
    requires Consistent(l, buckets, trace, now)
    ensures Consistent(l, SweptAt(l, buckets, now), trace, now)
  {
    hide State;
    forall key ensures Agrees(l, Lookup(SweptAt(l, buckets, now), key), State(l, TimesOf(trace, key)), now) {
      assert Agrees(l, Lookup(buckets, key), State(l, TimesOf(trace, key)), now);
    }
  }

  lemma Recorded(l: Limits, buckets: map<string, Bucket>, trace: seq<Request>, key: string, now: real,
                 buckets': map<string, Bucket>)
    requires Consistent(l, buckets, trace, now)
    requires forall k ::
               Lookup(buckets', k) == if k == key then Decide(l, Lookup(buckets, key), now).1 else Lookup(buckets, k)
    ensures Decide(l, Lookup(buckets, key), now).0 == Allowed(l, TimesOf(trace, key), now)
    ensures Consistent(l, buckets', trace + [Request(key, now)], now)
  {
    hide State, Decide, Lookup;
    var trace' := trace + [Request(key, now)];
    assert trace'[..|trace|] == trace;
    assert Agrees(l, Lookup(buckets, key), State(l, TimesOf(trace, key)), now);
    DecideAlike(l, Lookup(buckets, key), TimesOf(trace, key), now);
    forall k ensures Agrees(l, Lookup(buckets', k), State(l, TimesOf(trace', k)), now) {
      assert Agrees(l, Lookup(buckets, k), State(l, TimesOf(trace, k)), now);
      if k != key {
        assert TimesOf(trace', k) == TimesOf(trace, k);
      }
    }
  }

  class FixedWindowRateLimiter {
    const limits: Limits
    const sweepInterval: real
    var buckets: map<string, Bucket>
    var lastSweep: real
    ghost var trace: seq<Request>

    ghost predicate Valid()
      reads this
    {
      Clocked(trace) && Consistent(limits, buckets, trace, Latest(trace))
    }

    constructor (limit: int, window: real)
      ensures Valid() && limits == Limits(limit, window) && trace == []
      ensures buckets == map[] && lastSweep == 0.0 && sweepInterval == window * 5.0
    {
      limits := Limits(limit, window);
      sweepInterval := window * 5.0;
      buckets := map[];
      lastSweep := 0.0;
      trace := [];
    }

    method MaybeSweep(now: real)
      modifies this`buckets, this`lastSweep
      ensures now - old(lastSweep) < sweepInterval ==> buckets == old(buckets) && lastSweep == old(lastSweep)
      ensures now - old(lastSweep) >= sweepInterval ==>
                buckets == SweptAt(limits, old(buckets), now) && lastSweep == now
    {
      if now - lastSweep < sweepInterval {
        return;
      }
      lastSweep := now;
      var stale: set<string> := {};
      var rest := buckets.Keys;
      while rest != {}
        invariant rest <= buckets.Keys && buckets == old(buckets) && lastSweep == now
        invariant forall key :: key in stale <==> key in buckets.Keys - rest && OverAt(limits, buckets[key], now)
        decreases rest
      {
        var key :| key in rest;
        if OverAt(limits, buckets[key], now) {
          stale := stale + {key};
        }
        rest := rest - {key};
      }
      ghost var removed: set<string> := {};
      rest := stale;
      while rest != {}
        invariant removed + rest == stale && removed !! rest && lastSweep == now
        invariant buckets == old(buckets) - removed
        decreases rest
      {
        var key :| key in rest;
        buckets := buckets - {key};
        rest, removed := rest - {key}, removed + {key};
      }
      assert removed == stale;
    }

    /** Decides as the reference does on the earlier requests of the same key. */
    method Allow(key: string, now: real) returns (allowed: bool)
      requires Valid() && (trace != [] ==> trace[|trace| - 1].now <= now)
      modifies this`buckets, this`lastSweep, this`trace
      ensures Valid() && trace == old(trace) + [Request(key, now)]
      ensures allowed == Allowed(limits, TimesOf(old(trace), key), now)
    {
      hide State, TimesOf;
      Later(limits, buckets, trace, now);
      SweepInvisible(limits, buckets, trace, now);
      MaybeSweep(now);
      ghost var before := buckets;
      var b := if key in buckets then buckets[key] else Bucket(0, now);
      if OverAt(limits, b, now) {
        buckets := buckets[key := Bucket(1, now)];
        allowed := true;
      } else if b.count >= limits.limit {
        allowed := false;
      } else {
        buckets := buckets[key := Bucket(b.count + 1, b.start)];
        allowed := true;
      }
      Recorded(limits, before, trace, key, now, buckets);
      trace := trace + [Request(key, now)];
    }
  }
}
