/**
  MPP funding: challenge selection and the `/fund` protocol of `execute_fund_with_mpp`, against an arbitrary
  environment. Each answer of the environment may depend on all calls before it, and each callback may raise.
 */
module MppFunding {
  import opened Basics
  import opened Text

  datatype FundResult = FundResult(
    statusCode: int, funded: bool, capabilityToken: Option<string>, fundingStatus: Option<string>,
    wwwAuthenticate: seq<string>)

  /** The proof given by the caller, or the n-th one issued during the run. */
  datatype Proof = Given | Issued(n: nat)

  datatype Call = Call(proof: Proof, authorization: Option<string>)

  /** The callbacks; `None` is an exception. */
  datatype Environment = Environment(
    fund: seq<Call> -> Option<FundResult>,
    issues: nat -> bool,
    select: seq<string> -> Option<string>,
    credential: string -> Option<string>)

  datatype End =
    | Returned(result: FundResult)
    | Pending(result: FundResult, attempts: int)
    | Failed(result: FundResult)
    | EmptyCredential(result: FundResult)
    | Raised

  /** The fund calls with their answers, the challenges answered with a credential, and the end. */
  datatype Run = Run(log: seq<Call>, responses: seq<FundResult>, created: seq<string>, end: End)

  const TERMINAL_STATUSES: seq<string> := [
    "authorization_failed", "capture_failed", "void_failed", "credential_rejected", "payment_failed",
    "charge_failed", "session_open_failed"]

  predicate Complete(x: FundResult) {
    (x.capabilityToken.Some? && Strip(x.capabilityToken.value) != "") || (x.statusCode == 200 && x.funded)
  }

  predicate Terminal(x: FundResult) {
    x.fundingStatus.Some? && Strip(x.fundingStatus.value) in TERMINAL_STATUSES
  }

  /** Neither settled nor refused: worth another poll. */
  predicate Unsettled(x: FundResult) {
    !Terminal(x) && !Complete(x) && (x.statusCode == 202 || x.statusCode == 200)
  }

  predicate Challenged(x: FundResult) {
    x.statusCode == 402
  }

  /** The trimmed credential for the challenge of a 402 answer. */
  function Credential(env: Environment, x: FundResult): Option<string> {
    var challenge := env.select(x.wwwAuthenticate);
    if challenge.None? then None
    else
      var credential := env.credential(challenge.value);
      if credential.None? then None else Some(Strip(credential.value))
  }

  /** A credential is made once, for the challenge of a first 402. */
  function Created(env: Environment, responses: seq<FundResult>): seq<string> {
    if responses == [] || !Challenged(responses[0]) then []
    else
      var challenge := env.select(responses[0].wwwAuthenticate);
      if challenge.None? then [] else [challenge.value]
  }

  function Polls(max: int): (m: nat)
    ensures m >= 1 && m >= max
  {
    if max >= 1 then max else 1
  }

  // ----- Which runs are possible

  /** How many calls precede the first that can settle the run: one more after a first 402. */
  function Opening(first: FundResult): nat {
    if Challenged(first) then 1 else 0
  }

  /** The answer to call i asks for call i + 1. */
  predicate AsksForMore(env: Environment, first: FundResult, i: nat, x: FundResult) {
    if i < Opening(first) then Credential(env, x).Some? && Credential(env, x) != Some("")
    else Unsettled(x)
  }

  /** Call i: the given proof first, then always the next issued proof, with the credential of a first 402. */
  function ExpectedCall(env: Environment, first: FundResult, i: nat): Call {
    if i == 0 then Call(Given, None)
    else Call(Issued(i - 1), if Challenged(first) then Credential(env, first) else None)
  }

  predicate Answers(env: Environment, log: seq<Call>, responses: seq<FundResult>) {
    && |responses| <= |log|
    && forall i | 0 <= i < |responses| :: env.fund(log[..i + 1]) == Some(responses[i])
  }

  /** Call i is the expected one, with an issued proof, and was asked for. */
  predicate Justified(env: Environment, log: seq<Call>, responses: seq<FundResult>, i: nat)
    requires 1 <= i < |log| && i <= |responses|
  {
    && log[i] == ExpectedCall(env, responses[0], i) && env.issues(i - 1)
    && AsksForMore(env, responses[0], i - 1, responses[i - 1])
  }

  predicate Calls(env: Environment, log: seq<Call>, responses: seq<FundResult>) {
    && log != [] && log[0] == Call(Given, None)
    && |responses| >= |log| - 1
    && forall i | 1 <= i < |log| :: Justified(env, log, responses, i)
  }

  /** The end after every call was answered, from the last answer x. */
  predicate EndsWell(env: Environment, max: int, first: FundResult, n: nat, x: FundResult, end: End)
    requires n >= 1
  {
    if n <= Opening(first) then
      match Credential(env, x)
      case None => end == Raised
      case Some(credential) =>
        if credential == "" then end == EmptyCredential(x) else !env.issues(n - 1) && end == Raised
    else if Terminal(x) then end == Failed(x)
    else if Complete(x) then end == Returned(x)
    else if !Unsettled(x) then end == Failed(x)
    else if n == 1 + Opening(first) + Polls(max) then end == Pending(x, Polls(max))
    else !env.issues(n - 1) && end == Raised
  }

  /** The protocol: what is called, when it goes on, how it ends. */
  predicate Possible(env: Environment, max: int, r: Run) {
    && Answers(env, r.log, r.responses) && Calls(env, r.log, r.responses) && r.created == Created(env, r.responses)
    && (|r.log| >= 2 ==> |r.log| <= 1 + Opening(r.responses[0]) + Polls(max))
    && if |r.responses| < |r.log| then env.fund(r.log).None? && r.end == Raised
       else EndsWell(env, max, r.responses[0], |r.log|, r.responses[|r.log| - 1], r.end)
  }

  // ----- The method

  /** `execute_fund_with_mpp`; the completion check after the loop is unreachable. */
  method ExecuteFund(env: Environment, max: int) returns (r: Run)
    ensures Possible(env, max, r)
  {
    hide Terminal, Complete, Credential, Polls, Answers, Calls, Strip;
    var maxAttempts := Polls(max);
    var log := [Call(Given, None)];
    FirstCall(env);
    var answer := env.fund(log);
    if answer.None? {
      return Run(log, [], [], Raised);
    }
    var result := answer.value;
    var responses := [result];
    FirstAnswer(env, result);
    ghost var first := result;
    var authorization: Option<string> := None;
    var created: seq<string> := [];
    var issued := 0;
    if Challenged(result) {
      CredentialMade(env, result);
      var challenge := env.select(result.wwwAuthenticate);
      if challenge.None? {
        return Run(log, responses, created, Raised);
      }
      created := created + [challenge.value];
      var credential := env.credential(challenge.value);
      if credential.None? {
        return Run(log, responses, created, Raised);
      }
      authorization := Some(Strip(credential.value));
      if authorization.value == "" {
        return Run(log, responses, created, EmptyCredential(result));
      }
      if !env.issues(issued) {
        return Run(log, responses, created, Raised);
      }
      NextCall(env, log, responses);
      log := log + [Call(Issued(issued), authorization)];
      issued := issued + 1;
      answer := env.fund(log);
      if answer.None? {
        return Run(log, responses, created, Raised);
      }
      result := answer.value;
      NextAnswer(env, log, responses, result);
      responses := responses + [result];
    }
    if Terminal(result) {
      return Run(log, responses, created, Failed(result));
    }
    if Complete(result) {
      return Run(log, responses, created, Returned(result));
    }
    var attempts := 0;
    while result.statusCode == 202 || (!Complete(result) && result.statusCode == 200)
      invariant 0 <= attempts <= maxAttempts && |log| == |responses| == 1 + Opening(first) + attempts
      invariant first == responses[0] && result == responses[|responses| - 1] && !Terminal(result) && !Complete(result)
      invariant Answers(env, log, responses) && Calls(env, log, responses)
      invariant created == Created(env, responses) && issued == |log| - 1
      invariant authorization == if Challenged(first) then Credential(env, first) else None
      decreases maxAttempts - attempts
    {
      attempts := attempts + 1;
      if attempts > maxAttempts {
        return Run(log, responses, created, Pending(result, maxAttempts));
      }
      if !env.issues(issued) {
        return Run(log, responses, created, Raised);
      }
      NextCall(env, log, responses);
      log := log + [Call(Issued(issued), authorization)];
      issued := issued + 1;
      answer := env.fund(log);
      if answer.None? {
        return Run(log, responses, created, Raised);
      }
      result := answer.value;
      NextAnswer(env, log, responses, result);
      responses := responses + [result];
      if Terminal(result) {
        return Run(log, responses, created, Failed(result));
      }
      if Complete(result) {
        return Run(log, responses, created, Returned(result));
      }
    }
    if Complete(result) {
      assert false;
    }
    return Run(log, responses, created, Failed(result));
  }

  lemma CredentialMade(env: Environment, x: FundResult)
    ensures var challenge := env.select(x.wwwAuthenticate);
            if challenge.None? || env.credential(challenge.value).None? then Credential(env, x).None?
            else Credential(env, x) == Some(Strip(env.credential(challenge.value).value))
  {
  }

  lemma FirstCall(env: Environment)
    ensures Answers(env, [Call(Given, None)], []) && Calls(env, [Call(Given, None)], [])
  {
  }

  lemma FirstAnswer(env: Environment, x: FundResult)
    requires env.fund([Call(Given, None)]) == Some(x)
    ensures Answers(env, [Call(Given, None)], [x]) && Calls(env, [Call(Given, None)], [x])
  {
    var log := [Call(Given, None)];
    assert log[..1] == log;
  }

  lemma NextCall(env: Environment, log: seq<Call>, responses: seq<FundResult>)
    requires |log| == |responses| >= 1 && Answers(env, log, responses) && Calls(env, log, responses)
    requires AsksForMore(env, responses[0], |log| - 1, responses[|log| - 1]) && env.issues(|log| - 1)
    ensures var log' := log + [ExpectedCall(env, responses[0], |log|)];
            Answers(env, log', responses) && Calls(env, log', responses)
  {
    hide AsksForMore, ExpectedCall;
    var log' := log + [ExpectedCall(env, responses[0], |log|)];
    forall i | 1 <= i < |log'| ensures Justified(env, log', responses, i) {
      if i < |log| {
        assert Justified(env, log, responses, i);
      }
    }
    forall i | 0 <= i < |responses| ensures env.fund(log'[..i + 1]) == Some(responses[i]) {
      assert log'[..i + 1] == log[..i + 1];
    }
  }

  lemma NextAnswer(env: Environment, log: seq<Call>, responses: seq<FundResult>, x: FundResult)
    requires |log| == |responses| + 1 && responses != [] && Answers(env, log, responses) && Calls(env, log, responses)
    requires env.fund(log) == Some(x)
    ensures Answers(env, log, responses + [x]) && Calls(env, log, responses + [x])
  {
    hide AsksForMore, ExpectedCall;
    assert log[..|log|] == log;
    forall i | 1 <= i < |log| ensures Justified(env, log, responses + [x], i) {
      assert Justified(env, log, responses, i);
    }
  }

  // ----- What every possible run satisfies

  lemma Shape(env: Environment, max: int, r: Run)
    requires Possible(env, max, r)
    ensures r.log != [] && |r.log| - 1 <= |r.responses| <= |r.log|
  {
    hide Polls, EndsWell;
  }

  /** Every call after the first uses a proof issued for it, never used before. */
  lemma ProofsFresh(env: Environment, max: int, r: Run, i: nat, j: nat)
    requires Possible(env, max, r) && i < j < |r.log|
    ensures r.log[j].proof == Issued(j - 1) && env.issues(j - 1) && r.log[i].proof != r.log[j].proof
  {
    hide Polls, AsksForMore, Answers, EndsWell, Credential;
    assert Justified(env, r.log, r.responses, j);
    if i > 0 {
      assert Justified(env, r.log, r.responses, i);
    }
  }

  /**
    A credential exists only after a first 402, is made from that answer alone and goes with every later call
    unchanged.
   */
  lemma CredentialCarried(env: Environment, max: int, r: Run, i: nat)
    requires Possible(env, max, r) && i < |r.log|
    ensures |r.created| <= 1 && (r.created != [] ==> r.responses != [] && Challenged(r.responses[0]))
    ensures r.log[i].authorization.Some? <==> i > 0 && Challenged(r.responses[0])
    ensures r.log[i].authorization.Some? ==>
              r.log[i].authorization == Credential(env, r.responses[0]) && r.log[i].authorization.value != ""
  {
    hide Polls, Answers, EndsWell, Credential;
    if i > 0 {
      assert Justified(env, r.log, r.responses, 1) && Justified(env, r.log, r.responses, i);
    }
  }

  /**
    At most two calls more than the polls allowed. A result is returned exactly when the last answer, past the
    opening 402, is complete and not terminally failed, and reported failed exactly when it is terminally failed or
    neither complete nor pending.
   */
  lemma SettledExactly(env: Environment, max: int, r: Run)
    requires Possible(env, max, r)
    ensures 1 <= |r.log| <= Polls(max) + 2
    ensures r.end.Returned? <==> Answered(r) && Complete(Last(r)) && !Terminal(Last(r))
    ensures r.end.Failed? <==> Answered(r) && !Unsettled(Last(r)) && (Complete(Last(r)) ==> Terminal(Last(r)))
    ensures r.end.Returned? || r.end.Failed? ==> r.end.result == Last(r)
  {
    hide Polls, Answers, Calls, Credential, Complete, Terminal;
    Shape(env, max, r);
  }

  /** Every call was answered, and one of them came after the opening 402. */
  predicate Answered(r: Run) {
    r.log != [] && |r.responses| == |r.log| > Opening(r.responses[0])
  }

  function Last(r: Run): FundResult
    requires r.responses != []
  {
    r.responses[|r.responses| - 1]
  }

  /** Pending is raised exactly after all polls allowed, every answer to them still unsettled. */
  lemma PendingAfterAllPolls(env: Environment, max: int, r: Run)
    requires Possible(env, max, r)
    ensures r.end.Pending? <==>
            && |r.responses| == |r.log| && |r.log| - 1 - Opening(r.responses[0]) == Polls(max)
            && Unsettled(r.responses[|r.log| - 1])
    ensures r.end.Pending? ==>
              && r.end.attempts == Polls(max)
              && forall i | Opening(r.responses[0]) <= i < |r.log| :: Unsettled(r.responses[i])
  {
    hide Polls, Answers, Unsettled, Credential, Complete, Terminal;
    UnsettledMeans(r.responses);
    Shape(env, max, r);
    if r.end.Pending? {
      forall i | Opening(r.responses[0]) <= i < |r.log| ensures Unsettled(r.responses[i]) {
        if i < |r.log| - 1 {
          assert Justified(env, r.log, r.responses, i + 1);
        }
      }
    }
  }

  lemma UnsettledMeans(s: seq<FundResult>)
    ensures forall i | 0 <= i < |s| && Unsettled(s[i]) :: !Terminal(s[i]) && !Complete(s[i])
  {
  }

  // ----- Calls and ends in full

  /**
    The first call carries the given proof and no credential, call i the (i-1)-st issued proof and, after a first 402,
    the trimmed credential for the challenge selected from that answer.
   */
  lemma CallsInFull(env: Environment, max: int, r: Run, i: nat)
    requires Possible(env, max, r) && i < |r.log|
    ensures i == 0 ==> r.log[i] == Call(Given, None)
    ensures i > 0 ==> r.responses != [] && r.log[i].proof == Issued(i - 1)
    ensures i > 0 && r.responses[0].statusCode != 402 ==> r.log[i].authorization == None
    ensures i > 0 && r.responses[0].statusCode == 402 ==>
              && env.select(r.responses[0].wwwAuthenticate).Some?
              && env.credential(env.select(r.responses[0].wwwAuthenticate).value).Some?
              && r.log[i].authorization
                 == Some(Strip(env.credential(env.select(r.responses[0].wwwAuthenticate).value).value))
  {
    hide Polls, Answers, EndsWell, Strip;
    if i > 0 {
      assert Justified(env, r.log, r.responses, 1) && Justified(env, r.log, r.responses, i);
    }
  }

  /** A terminal funding status. */
  predicate Refused(x: FundResult) {
    match x.fundingStatus
    case None => false
    case Some(status) =>
      var s := Strip(status);
      || s == "authorization_failed" || s == "capture_failed" || s == "void_failed" || s == "credential_rejected"
      || s == "payment_failed" || s == "charge_failed" || s == "session_open_failed"
  }

  /** A capability token that is not blank, or a funded 200. */
  predicate Settled(x: FundResult) {
    match x.capabilityToken
    case Some(token) => Strip(token) != "" || (x.funded && x.statusCode == 200)
    case None => x.funded && x.statusCode == 200
  }

  lemma RefusedExactly(x: FundResult)
    ensures Refused(x) <==> Terminal(x)
  {
    hide Strip;
  }

  lemma SettledMeans(x: FundResult)
    ensures Settled(x) <==> Complete(x)
  {
    hide Strip;
  }

  /**
    Once every call is answered, past an opening 402, the last answer decides the end: refused, settled, neither, or
    still open after every poll; otherwise the next proof could not be issued.
   */
  lemma LastAnswerDecides(env: Environment, max: int, r: Run)
    requires Possible(env, max, r) && |r.responses| == |r.log|
    ensures r.log != []
    ensures var opening := if r.responses[0].statusCode == 402 then 1 else 0;
            var polls := if max < 1 then 1 else max;
            var x := Last(r);
            |r.log| > opening ==>
              r.end == if Refused(x) then Failed(x)
                       else if Settled(x) then Returned(x)
                       else if x.statusCode !in {200, 202} then Failed(x)
                       else if |r.log| == 1 + opening + polls then Pending(x, polls)
                       else Raised
  {
    hide Answers, Calls, Credential, Terminal, Complete, Refused, Settled, Strip;
    Shape(env, max, r);
    RefusedExactly(Last(r));
    SettledMeans(Last(r));
  }

  // ----- The run is determined by the environment

  lemma {:induction false} SamePrefix(env: Environment, max: int, r: Run, s: Run, k: nat)
    requires Possible(env, max, r) && Possible(env, max, s) && k <= |r.log| && k <= |s.log|
    ensures r.log[..k] == s.log[..k]
    ensures forall i | 0 <= i < k && i < |r.responses| && i < |s.responses| :: r.responses[i] == s.responses[i]
  {
    hide Polls, EndsWell, AsksForMore, ExpectedCall;
    if k > 0 {
      SamePrefix(env, max, r, s, k - 1);
      if k > 1 {
        assert Justified(env, r.log, r.responses, k - 1) && Justified(env, s.log, s.responses, k - 1);
      }
      assert r.log[..k] == r.log[..k - 1] + [r.log[k - 1]] && s.log[..k] == s.log[..k - 1] + [s.log[k - 1]];
    }
  }

  predicate GoesOn(env: Environment, max: int, first: FundResult, n: nat, x: FundResult)
    requires n >= 1
  {
    AsksForMore(env, first, n - 1, x) && env.issues(n - 1) && n < 1 + Opening(first) + Polls(max)
  }

  lemma Stops(env: Environment, max: int, r: Run)
    requires Possible(env, max, r)
    ensures var n := |r.log|;
            && n >= 1
            && (|| env.fund(r.log).None?
                || (|r.responses| == n && !GoesOn(env, max, r.responses[0], n, r.responses[n - 1])))
  {
    hide Polls, Credential, Terminal, Complete, ExpectedCall, Calls;
    Shape(env, max, r);
    assert r.log[..|r.log|] == r.log;
    if |r.responses| == |r.log| {
      BoundHolds(env, max, r);
    }
  }

  lemma BoundHolds(env: Environment, max: int, r: Run)
    requires Possible(env, max, r) && |r.responses| == |r.log|
    ensures r.log != [] && |r.log| <= 1 + Opening(r.responses[0]) + Polls(max)
  {
    hide EndsWell, Answers, Credential;
  }

  lemma Continues(env: Environment, max: int, s: Run, n: nat)
    requires Possible(env, max, s) && 1 <= n < |s.log|
    ensures |s.responses| >= n && env.fund(s.log[..n]) == Some(s.responses[n - 1])
    ensures GoesOn(env, max, s.responses[0], n, s.responses[n - 1])
  {
    hide Polls, AsksForMore, EndsWell, ExpectedCall;
    assert Justified(env, s.log, s.responses, n);
    assert env.fund(s.log[..n - 1 + 1]) == Some(s.responses[n - 1]);
  }

  lemma NotLonger(env: Environment, max: int, r: Run, s: Run)
    requires Possible(env, max, r) && Possible(env, max, s)
    ensures |s.log| <= |r.log|
  {
    hide Possible, GoesOn;
    var n := |r.log|;
    Stops(env, max, r);
    if n < |s.log| {
      Continues(env, max, s, n);
      SamePrefix(env, max, r, s, n);
    }
    assert r.log[..n] == r.log;
  }

  /** There is exactly one possible run, the one `ExecuteFund` makes. */
  lemma RunUnique(env: Environment, max: int, r: Run, s: Run)
    requires Possible(env, max, r) && Possible(env, max, s)
    ensures r == s
  {
    hide Polls, Credential, Terminal, Complete, Calls;
    NotLonger(env, max, r, s);
    NotLonger(env, max, s, r);
    SamePrefix(env, max, r, s, |r.log|);
    assert r.log[..|r.log|] == r.log && s.log[..|r.log|] == s.log;
    SameAnswers(env, max, r, s);
    assert r.responses == s.responses;
  }

  lemma SameAnswers(env: Environment, max: int, r: Run, s: Run)
    requires Possible(env, max, r) && Possible(env, max, s) && r.log == s.log
    ensures |r.responses| == |s.responses| && r.log != []
  {
    hide Polls, EndsWell, AsksForMore, ExpectedCall;
    var n := |r.log|;
    assert r.log[..n - 1 + 1] == r.log;
    if |r.responses| == n {
      assert env.fund(r.log[..n - 1 + 1]) == Some(r.responses[n - 1]);
    }
    if |s.responses| == n {
      assert env.fund(s.log[..n - 1 + 1]) == Some(s.responses[n - 1]);
    }
  }

  // ----- Choosing the challenge

  datatype Challenge = Challenge(raw: string, intent: Option<string>, method_: Option<string>)

  type ChallengeParser = string -> Result<Challenge>

  predicate Matches(parse: ChallengeParser, header: string, intent: string, method_: string) {
    parse(header).Ok? && parse(header).value.intent == Some(intent) && parse(header).value.method_ == Some(method_)
  }

  /** Header i is the first match, and everything before it parses. */
  predicate FirstMatch(parse: ChallengeParser, headers: seq<string>, intent: string, method_: string, i: nat) {
    && i < |headers| && Matches(parse, headers[i], intent, method_)
    && forall k | 0 <= k < i :: parse(headers[k]).Ok? && !Matches(parse, headers[k], intent, method_)
  }

  /** `_select_mpp_payment_challenge`; the single header is never returned by the second look. */
  method SelectChallenge(parse: ChallengeParser, headers: seq<string>, intent: string, method_: string)
    returns (r: Result<string>)
    ensures r.Ok? <==> exists i: nat :: FirstMatch(parse, headers, intent, method_, i)
    ensures forall i: nat :: FirstMatch(parse, headers, intent, method_, i) ==> r == Ok(parse(headers[i]).value.raw)
  {
    if |headers| == 0 {
      return Err(Missing);
    }
    for k := 0 to |headers|
      invariant forall j | 0 <= j < k :: parse(headers[j]).Ok? && !Matches(parse, headers[j], intent, method_)
    {
      var parsed := parse(headers[k]);
      if parsed.Err? {
        return Err(parsed.error);
      }
      if parsed.value.intent == Some(intent) && parsed.value.method_ == Some(method_) {
        assert FirstMatch(parse, headers, intent, method_, k);
        return Ok(parsed.value.raw);
      }
    }
    if |headers| == 1 {
      var parsed := parse(headers[0]).value;
      if parsed.intent != Some(intent) || parsed.method_ != Some(method_) {
        return Err(Mismatch);
      }
      assert false;
    }
    return Err(Missing);
  }
}
