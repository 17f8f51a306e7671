/**
  Device-login polling, section 3.5 of RFC 8628: the loop of `_poll_device_token` over an arbitrary clock and
  arbitrary answers. The one assumption is that sleeping k seconds advances the clock by at least k.
 */
module DevicePoll {
  import opened Basics

  const MIN_POLL_INTERVAL := 1
  const DEFAULT_INTERVAL := 5

  datatype Answer =
    | Token(accessToken: string)
    | AuthorizationPending(interval: Option<int>)
    | SlowDown(interval: Option<int>)
    | AccessDenied
    | ExpiredToken
    | OtherFailure

  datatype End = Approved(accessToken: string) | TimedOut | Denied | Failed

  datatype Start = Start(interval: Option<int>, expiresIn: int)

  /** Reading 0 is taken before the first sleep, reading k + 1 after sleep k; answer k is to request k. */
  datatype World = World(clock: nat -> real, answer: nat -> Answer)

  function Max(a: int, b: int): int {
    if a >= b then a else b
  }

  /** A missing or zero number gives way to the default. */
  function OrElse(o: Option<int>, default: int): int {
    if o.Some? && o.value != 0 then o.value else default
  }

  function NextInterval(interval: int, a: Answer): int {
    match a
    case AuthorizationPending(hint) => Max(interval, OrElse(hint, interval))
    case SlowDown(hint) => Max(interval + MIN_POLL_INTERVAL, OrElse(hint, 0))
    case _ => interval
  }

  predicate KeepsPolling(a: Answer) {
    a.AuthorizationPending? || a.SlowDown?
  }

  /** The sleep before request k. */
  function Interval(start: Start, w: World, k: nat): int {
    if k == 0 then Max(MIN_POLL_INTERVAL, OrElse(start.interval, DEFAULT_INTERVAL))
    else NextInterval(Interval(start, w, k - 1), w.answer(k - 1))
  }

  ghost predicate SleepAdvances(start: Start, w: World) {
    forall k: nat :: w.clock(k + 1) >= w.clock(k) + Interval(start, w, k) as real
  }

  /** Seconds from the first reading to the last at which a request is still sent. */
  function Budget(start: Start): int {
    Max(1, start.expiresIn) + 1
  }

  predicate InTime(start: Start, w: World, k: nat) {
    w.clock(k + 1) <= w.clock(0) + Budget(start) as real
  }

  function EndOf(a: Answer): End
    requires !KeepsPolling(a)
  {
    match a
    case Token(accessToken) => Approved(accessToken)
    case AccessDenied => Denied
    case ExpiredToken => TimedOut
    case OtherFailure => Failed
  }

  /** Requests go on while in time and told to poll; the end is the first other answer, or running out of time. */
  predicate Describes(start: Start, w: World, requests: nat, end: End) {
    && (forall k | 0 <= k < requests :: InTime(start, w, k))
    && (forall k | 0 <= k < requests - 1 :: KeepsPolling(w.answer(k)))
    && if requests > 0 && !KeepsPolling(w.answer(requests - 1)) then end == EndOf(w.answer(requests - 1))
       else !InTime(start, w, requests) && end == TimedOut
  }

  /** Reading k + 1 comes at most one second after the deadline. */
  predicate ReadInTime(start: Start, w: World, k: nat) {
    w.clock(k + 1) - w.clock(0) <= 1.0 + (if start.expiresIn > 1 then start.expiresIn as real else 1.0)
  }

  /** What the last answer makes of the login: a refusal to continue, or nothing when polling was to go on. */
  predicate Concludes(a: Answer, end: End) {
    match a
    case Token(accessToken) => end == Approved(accessToken)
    case AccessDenied => end == Denied
    case ExpiredToken => end == TimedOut
    case OtherFailure => end == Failed
    case AuthorizationPending(_) => false
    case SlowDown(_) => false
  }

  /** The description in full: which answers go on, what each other answer concludes, and when time is up. */
  lemma DescribedInFull(start: Start, w: World, requests: nat, end: End)
    ensures Describes(start, w, requests, end) <==>
            && (forall k | 0 <= k < requests :: ReadInTime(start, w, k))
            && (forall k | 0 <= k < requests - 1 ::
                  w.answer(k).AuthorizationPending? || w.answer(k).SlowDown?)
            && (|| (requests > 0 && Concludes(w.answer(requests - 1), end))
                || (&& (requests > 0 ==>
                          w.answer(requests - 1).AuthorizationPending? || w.answer(requests - 1).SlowDown?)
                    && !ReadInTime(start, w, requests) && end == TimedOut))
  {
    forall k: nat ensures ReadInTime(start, w, k) <==> InTime(start, w, k) {
    }
    hide ReadInTime, InTime;
  }

  // ----- Intervals

  /** The interval never shrinks, and a slow_down raises it. */
  lemma IntervalGrows(start: Start, w: World, k: nat)
    ensures Interval(start, w, k) <= Interval(start, w, k + 1)
    ensures w.answer(k).SlowDown? ==> Interval(start, w, k) + MIN_POLL_INTERVAL <= Interval(start, w, k + 1)
  {
  }

  /** The least number that is at least `floor` and at least the hint, if there is one. */
  predicate LeastAbove(floor: int, hint: Option<int>, n: int) {
    n >= floor && (hint.Some? ==> n >= hint.value) && (n == floor || hint == Some(n))
  }

  /**
    The first interval is the server's but at least 1, or 5 when there is none; a pending answer raises it to its
    hint, a slow_down by one second or to its hint, and nothing else changes it.
   */
  lemma IntervalExactly(start: Start, w: World, k: nat)
    ensures if start.interval in {None, Some(0)} then Interval(start, w, 0) == 5
            else LeastAbove(1, start.interval, Interval(start, w, 0))
    ensures match w.answer(k)
            case AuthorizationPending(hint) => LeastAbove(Interval(start, w, k), hint, Interval(start, w, k + 1))
            case SlowDown(hint) => LeastAbove(Interval(start, w, k) + 1, hint, Interval(start, w, k + 1))
            case _ => Interval(start, w, k + 1) == Interval(start, w, k)
  {
    IntervalPositive(start, w, k);
  }

  lemma {:induction false} IntervalPositive(start: Start, w: World, k: nat)
    ensures Interval(start, w, k) >= MIN_POLL_INTERVAL
  {
    if k > 0 {
      IntervalPositive(start, w, k - 1);
      IntervalGrows(start, w, k - 1);
    }
  }

  /** Time slept before request n. */
  function Slept(start: Start, w: World, n: nat): int {
    if n == 0 then 0 else Slept(start, w, n - 1) + Interval(start, w, n - 1)
  }

  lemma {:induction false} ClockAdvances(start: Start, w: World, n: nat)
    requires SleepAdvances(start, w)
    ensures w.clock(n) >= w.clock(0) + Slept(start, w, n) as real
  {
    hide Interval;
    if n > 0 {
      ClockAdvances(start, w, n - 1);
      assert w.clock(n - 1 + 1) >= w.clock(n - 1) + Interval(start, w, n - 1) as real;
    }
  }

  lemma {:induction false} SleptAtLeast(start: Start, w: World, n: nat)
    ensures Slept(start, w, n) >= n
  {
    hide Interval;
    if n > 0 {
      SleptAtLeast(start, w, n - 1);
      IntervalPositive(start, w, n - 1);
    }
  }

  // ----- The loop

  /** `_poll_device_token` */
  method PollDeviceToken(start: Start, w: World) returns (requests: nat, end: End)
    requires SleepAdvances(start, w)
    ensures Describes(start, w, requests, end)
  {
    var interval := Max(MIN_POLL_INTERVAL, OrElse(start.interval, DEFAULT_INTERVAL));
    var expiresAt := w.clock(0) + Max(1, start.expiresIn) as real;
    requests := 0;
    while true
      invariant interval == Interval(start, w, requests) && requests <= Budget(start)
      invariant forall k | 0 <= k < requests :: InTime(start, w, k) && KeepsPolling(w.answer(k))
      decreases Budget(start) - requests
    {
      hide SleepAdvances, Slept;
      ClockAdvances(start, w, requests + 1);
      SleptAtLeast(start, w, requests + 1);
      if w.clock(requests + 1) > expiresAt + 1.0 {
        return requests, TimedOut;
      }
      var answer := w.answer(requests);
      requests := requests + 1;
      if !KeepsPolling(answer) {
        return requests, EndOf(answer);
      }
      interval := NextInterval(interval, answer);
    }
  }

  // ----- Bounds on every run

  /** The sleeps before the last request fit in the budget. */
  lemma SleepWithinBudget(start: Start, w: World, requests: nat, end: End)
    requires SleepAdvances(start, w) && Describes(start, w, requests, end)
    ensures Slept(start, w, requests) <= Budget(start)
  {
    hide SleepAdvances, Slept;
    if requests > 0 {
      ClockAdvances(start, w, requests);
      assert InTime(start, w, requests - 1);
    } else {
      NothingSlept(start, w);
    }
  }

  lemma NothingSlept(start: Start, w: World)
    ensures Slept(start, w, 0) == 0
  {
  }

  lemma RequestsBounded(start: Start, w: World, requests: nat, end: End)
    requires SleepAdvances(start, w) && Describes(start, w, requests, end)
    ensures requests <= Max(1, start.expiresIn) + 1
  {
    hide SleepAdvances, Describes;
    SleepWithinBudget(start, w, requests, end);
    SleptAtLeast(start, w, requests);
  }

  function Triangle(n: nat): nat {
    if n == 0 then 0 else Triangle(n - 1) + n
  }

  lemma {:induction false} TriangleFormula(n: nat)
    ensures Triangle(n) == n * (n + 1) / 2
  {
    if n > 0 {
      TriangleFormula(n - 1);
      assert (n - 1) * n + 2 * n == n * (n + 1);
    }
  }

  lemma {:induction false} SlowedSleep(start: Start, w: World, n: nat)
    requires forall k | 0 <= k < n - 1 :: w.answer(k).SlowDown?
    ensures n > 0 ==> Interval(start, w, n - 1) >= n
    ensures Slept(start, w, n) >= Triangle(n)
  {
    if n > 0 {
      hide Interval;
      SlowedSleep(start, w, n - 1);
      IntervalPositive(start, w, n - 1);
      if n > 1 {
        IntervalGrows(start, w, n - 2);
      }
    }
  }

  /** Under slow_down alone the number of requests grows only with the square root of the time allowed. */
  lemma SlowedRequestsBounded(start: Start, w: World, requests: nat, end: End)
    requires SleepAdvances(start, w) && Describes(start, w, requests, end)
    requires forall k | 0 <= k < requests - 1 :: w.answer(k).SlowDown?
    ensures requests * (requests + 1) / 2 <= Max(1, start.expiresIn) + 1
  {
    hide SleepAdvances, Describes;
    SleepWithinBudget(start, w, requests, end);
    SlowedSleep(start, w, requests);
    TriangleFormula(requests);
  }

  /** The description fixes the run. */
  lemma DescribesOne(start: Start, w: World, n: nat, end: End, n': nat, end': End)
    requires Describes(start, w, n, end) && Describes(start, w, n', end')
    ensures n == n' && end == end'
  {
    hide Interval, KeepsPolling, InTime;
    assert n < n' ==> InTime(start, w, n);
    assert n' < n ==> InTime(start, w, n');
  }
}
