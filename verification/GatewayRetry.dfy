/**
  Gateway retries: the loop of `httpx_with_gateway_retries` against an arbitrary sequence of outcomes, and a
  description of its runs by the first outcome that stops them.
 */
module GatewayRetry {
  import opened Basics

  /** A body is a Cloudflare edge error, with its `retry_after` when that is a number, or anything else. */
  datatype Body = Edge(retryAfter: Option<real>) | Other

  datatype Outcome =
    | TransportError
    | OtherError
    | Response(status: int, body: Body, retryAfterHeader: Option<real>)

  datatype End = Returned(response: Outcome) | RaisedTransport | RaisedOther | Exhausted

  datatype Run = Run(requests: nat, sleeps: seq<real>, end: End)

  /** What the n-th request meets, and the jitter drawn after it. */
  datatype World = World(outcome: nat -> Outcome, jitter: nat -> real)

  const EDGE_CAP := 8.0
  const HEADER_CAP := 30.0
  const BACKOFF_CAP := 5.0

  predicate RetryableStatus(status: int) {
    status == 429 || status == 500 || status == 502 || status == 503 || status == 504
  }

  predicate ShouldRetry(o: Outcome) {
    o.Response? && RetryableStatus(o.status) && !o.body.Edge?
  }

  function Min(a: real, b: real): real {
    if b < a then b else a
  }

  function Power(n: nat): real {
    if n == 0 then 1.0 else 2.0 * Power(n - 1)
  }

  function Backoff(w: World, attempt: nat): real {
    Min(0.2 * Power(attempt) + w.jitter(attempt), BACKOFF_CAP)
  }

  function RetryDelay(w: World, attempt: nat, header: Option<real>): real {
    if header.Some? then Min(header.value, HEADER_CAP) else Backoff(w, attempt)
  }

  /** A zero edge delay counts as none. */
  function EdgeDelay(w: World, attempt: nat, o: Outcome): real
    requires o.Response? && o.body.Edge?
  {
    if o.body.retryAfter.Some? && Min(o.body.retryAfter.value, EDGE_CAP) != 0.0
      then Min(o.body.retryAfter.value, EDGE_CAP)
    else RetryDelay(w, attempt, o.retryAfterHeader)
  }

  /** The edge delay is taken exactly when it is not zero, or when the delay that replaces it is zero as well. */
  lemma EdgeDelayTaken(w: World, attempt: nat, o: Outcome)
    requires o.Response? && o.body.Edge? && o.body.retryAfter.Some?
    ensures EdgeDelay(w, attempt, o) == Min(o.body.retryAfter.value, EDGE_CAP) <==>
            o.body.retryAfter.value != 0.0 || RetryDelay(w, attempt, o.retryAfterHeader) == 0.0
  {
    hide RetryDelay;
  }

  /** An edge error that allows an immediate retry is retried after what its header asks for. */
  lemma ZeroEdgeDelayIgnored(w: World, attempt: nat)
    ensures EdgeDelay(w, attempt, Response(503, Edge(Some(0.0)), Some(20.0))) == 20.0
  {
  }

  // ----- The description

  predicate Retryable(o: Outcome) {
    o.TransportError? || (o.Response? && RetryableStatus(o.status))
  }

  predicate EdgeError(o: Outcome) {
    o.Response? && RetryableStatus(o.status) && o.body.Edge?
  }

  predicate EdgeBefore(w: World, i: nat) {
    exists j | 0 <= j < i :: EdgeError(w.outcome(j))
  }

  /** The reasons to stop at outcome i: no attempt left, nothing transient, or a second edge error. */
  predicate Stops(w: World, max: int, i: nat) {
    || i + 1 == max
    || !Retryable(w.outcome(i))
    || (EdgeError(w.outcome(i)) && EdgeBefore(w, i))
  }

  function EndOf(o: Outcome): End {
    match o
    case TransportError => RaisedTransport
    case OtherError => RaisedOther
    case Response(_, _, _) => Returned(o)
  }

  function DelayAfter(w: World, i: nat): real {
    var o := w.outcome(i);
    if !o.Response? then RetryDelay(w, i, None)
    else if o.body.Edge? then EdgeDelay(w, i, o)
    else RetryDelay(w, i, o.retryAfterHeader)
  }

  /** Requests go on until the first outcome that stops, which is the result. */
  predicate Describes(w: World, max: int, r: Run) {
    if max <= 0 then r == Run(0, [], Exhausted)
    else
      && 1 <= r.requests <= max && |r.sleeps| == r.requests - 1
      && Stops(w, max, r.requests - 1) && r.end == EndOf(w.outcome(r.requests - 1))
      && forall i | 0 <= i < r.requests - 1 :: !Stops(w, max, i) && r.sleeps[i] == DelayAfter(w, i)
  }

  // ----- The loop

  /** `httpx_with_gateway_retries`; three of its exits are unreachable. */
  method RequestWithRetries(w: World, max: int) returns (r: Run)
    ensures Describes(w, max, r)
  {
    hide RetryDelay, RetryableStatus;
    var lastError: Option<End> := None;
    var edgeRetries := 0;
    var sleeps: seq<real> := [];
    var attempt := 0;
    while attempt < max
      invariant 0 <= attempt && (max >= 1 ==> attempt < max) && |sleeps| == attempt
      invariant max <= 0 ==> attempt == 0 && lastError.None?
      invariant forall i | 0 <= i < attempt :: !Stops(w, max, i) && sleeps[i] == DelayAfter(w, i)
      invariant edgeRetries == if EdgeBefore(w, attempt) then 1 else 0
      decreases max - attempt
    {
      var response := w.outcome(attempt);
      if response.OtherError? {
        return Run(attempt + 1, sleeps, RaisedOther);
      }
      if response.TransportError? {
        lastError := Some(RaisedTransport);
        if attempt + 1 >= max {
          return Run(attempt + 1, sleeps, RaisedTransport);
        }
        sleeps := sleeps + [RetryDelay(w, attempt, None)];
        attempt := attempt + 1;
        continue;
      }
      if RetryableStatus(response.status) && attempt + 1 < max {
        if response.body.Edge? {
          if edgeRetries >= 1 {
            return Run(attempt + 1, sleeps, Returned(response));
          }
          edgeRetries := edgeRetries + 1;
          sleeps := sleeps + [EdgeDelay(w, attempt, response)];
          attempt := attempt + 1;
          continue;
        }
        if !ShouldRetry(response) {
          assert false;
        }
        sleeps := sleeps + [RetryDelay(w, attempt, response.retryAfterHeader)];
        attempt := attempt + 1;
        continue;
      }
      return Run(attempt + 1, sleeps, Returned(response));
    }
    if lastError.Some? {
      assert false;
    }
    return Run(0, [], Exhausted);
  }

  // ----- The description in full

  /** 429, 500, 502, 503 or 504. */
  predicate Transient(o: Outcome) {
    o.Response? && o.status in [429, 500, 502, 503, 504]
  }

  /** Outcome i is answered with another request. */
  predicate AnsweredByRetry(w: World, i: nat) {
    var o := w.outcome(i);
    || o.TransportError?
    || (Transient(o) && o.body == Other)
    || (Transient(o) && o.body != Other
        && forall j | 0 <= j < i :: Transient(w.outcome(j)) ==> w.outcome(j).body == Other)
  }

  /** A retry delay: the header's, at most 30 seconds, or 0.2 * 2^i and jitter, at most 5. */
  predicate HeaderOrBackoff(w: World, i: nat, header: Option<real>, delay: real) {
    match header
    case Some(seconds) => delay <= seconds && delay <= 30.0 && (delay == seconds || delay == 30.0)
    case None =>
      var backoff := 0.2 * Power(i) + w.jitter(i);
      delay <= backoff && delay <= 5.0 && (delay == backoff || delay == 5.0)
  }

  /** The delay after outcome i: an edge error's own nonzero delay, at most 8 seconds, goes first. */
  predicate DelayInFull(w: World, i: nat, delay: real) {
    match w.outcome(i)
    case Response(_, Edge(Some(seconds)), header) =>
      if seconds == 0.0 then HeaderOrBackoff(w, i, header, delay)
      else delay <= seconds && delay <= 8.0 && (delay == seconds || delay == 8.0)
    case Response(_, _, header) => HeaderOrBackoff(w, i, header, delay)
    case _ => HeaderOrBackoff(w, i, None, delay)
  }

  predicate EndInFull(o: Outcome, end: End) {
    if o.TransportError? then end == RaisedTransport
    else if o.OtherError? then end == RaisedOther
    else end == Returned(o)
  }

  /** Powers of two: the start, the first step and the law of exponents. */
  lemma {:induction false} PowerLaw(m: nat, n: nat)
    ensures Power(0) == 1.0 && Power(1) == 2.0 && Power(m + n) == Power(m) * Power(n)
  {
    if m == 0 {
    } else {
      PowerLaw(m - 1, n);
      assert Power(m + n) == 2.0 * Power(m - 1 + n);
    }
  }

  lemma StopsUnlessRetried(w: World, max: int, i: nat)
    ensures Stops(w, max, i) <==> i + 1 == max || !AnsweredByRetry(w, i)
  {
    if Transient(w.outcome(i)) && w.outcome(i).body != Other && EdgeBefore(w, i) {
      var j :| 0 <= j < i && EdgeError(w.outcome(j));
      assert Transient(w.outcome(j));
    }
    if !EdgeBefore(w, i) {
      assert forall j | 0 <= j < i :: !EdgeError(w.outcome(j));
    }
  }

  lemma DelayExactly(w: World, i: nat, delay: real)
    ensures DelayAfter(w, i) == delay <==> DelayInFull(w, i, delay)
  {
    hide Power;
  }

  /**
    A run in full: each request but the last met an outcome that is retried and slept for its delay, and the last one
    met an outcome that is not retried, or used up the attempts, and is the result.
   */
  lemma RunInFull(w: World, max: int, r: Run)
    requires max >= 1
    ensures Describes(w, max, r) <==>
            && 1 <= r.requests <= max && |r.sleeps| == r.requests - 1
            && (forall i | 0 <= i < r.requests - 1 :: AnsweredByRetry(w, i) && DelayInFull(w, i, r.sleeps[i]))
            && (r.requests == max || !AnsweredByRetry(w, r.requests - 1))
            && EndInFull(w.outcome(r.requests - 1), r.end)
  {
    hide Stops, AnsweredByRetry, DelayAfter, DelayInFull;
    forall i: nat ensures Stops(w, max, i) <==> i + 1 == max || !AnsweredByRetry(w, i) {
      StopsUnlessRetried(w, max, i);
    }
    forall i: nat, delay ensures DelayAfter(w, i) == delay <==> DelayInFull(w, i, delay) {
      DelayExactly(w, i, delay);
    }
  }

  // ----- Consequences for every run

  /** The description fixes the run. */
  lemma DescribesOne(w: World, max: int, r: Run, s: Run)
    requires Describes(w, max, r) && Describes(w, max, s)
    ensures r == s
  {
    hide Stops, DelayAfter;
    if max > 0 {
      assert r.requests == s.requests;
      assert r.sleeps == s.sleeps;
    }
  }

  /**
    All outcomes but the last are retryable, and at most one edge error is followed by another request. With
    attempts left, a run stops only for an outcome that is not transient or a second edge error.
   */
  lemma Followed(w: World, max: int, r: Run)
    requires Describes(w, max, r) && max >= 1
    ensures forall i | 0 <= i < r.requests - 1 :: Retryable(w.outcome(i))
    ensures forall i, j | 0 <= i < j < r.requests - 1 :: !(EdgeError(w.outcome(i)) && EdgeError(w.outcome(j)))
    ensures var last := r.requests - 1;
            r.requests < max ==> !Retryable(w.outcome(last)) || (EdgeError(w.outcome(last)) && EdgeBefore(w, last))
  {
    hide DelayAfter;
    forall i | 0 <= i < r.requests - 1 ensures Retryable(w.outcome(i)) {
      assert !Stops(w, max, i);
    }
    forall i, j | 0 <= i < j < r.requests - 1 ensures !(EdgeError(w.outcome(i)) && EdgeError(w.outcome(j))) {
      assert !Stops(w, max, j);
    }
  }

  /** Time asleep: negative delays do not wait. */
  function Asleep(sleeps: seq<real>): real {
    if sleeps == [] then 0.0
    else
      var d := sleeps[|sleeps| - 1];
      Asleep(sleeps[..|sleeps| - 1]) + if d > 0.0 then d else 0.0
  }

  lemma {:induction false} AsleepBounded(sleeps: seq<real>)
    requires forall i | 0 <= i < |sleeps| :: sleeps[i] <= 30.0
    ensures Asleep(sleeps) <= 30.0 * |sleeps| as real
  {
    if sleeps != [] {
      AsleepBounded(sleeps[..|sleeps| - 1]);
    }
  }

  lemma SleepBounded(w: World, max: int, r: Run)
    requires Describes(w, max, r) && max >= 1
    ensures Asleep(r.sleeps) <= 30.0 * (max - 1) as real
  {
    hide Stops;
    forall i | 0 <= i < |r.sleeps| ensures r.sleeps[i] <= 30.0 {
      assert r.sleeps[i] == DelayAfter(w, i);
    }
    AsleepBounded(r.sleeps);
  }

  /** The bound is met: every answer asks for thirty seconds or more. */
  lemma SleepReached(w: World, max: int, r: Run)
    requires Describes(w, max, r) && max >= 1
    requires forall i: nat :: w.outcome(i) == Response(503, Other, Some(60.0))
    ensures r.requests == max && Asleep(r.sleeps) == 30.0 * (max - 1) as real
  {
    assert !EdgeError(w.outcome(r.requests - 1)) && Retryable(w.outcome(r.requests - 1));
    assert forall i | 0 <= i < |r.sleeps| :: r.sleeps[i] == DelayAfter(w, i) == 30.0;
    AsleepExactly(r.sleeps);
  }

  lemma {:induction false} AsleepExactly(sleeps: seq<real>)
    requires forall i | 0 <= i < |sleeps| :: sleeps[i] == 30.0
    ensures Asleep(sleeps) == 30.0 * |sleeps| as real
  {
    if sleeps != [] {
      AsleepExactly(sleeps[..|sleeps| - 1]);
    }
  }
}
