/**
 * The HTTP client under every capability: one attempt, its classification, and the retry loop.
 * A provider is a function from its state and a request to its next state and to what the attempt
 * meets; everything outside the adapter's control (replies, lost replies, cancellation during a
 * wait) is in that state, so "for every provider and every state" covers every behaviour.
 */
module Wire {
  import opened Options
  import opened Text
  import opened Json

  datatype Cause = Canceled | DeadlineExceeded | OtherCause

  datatype Body = Empty | NotJson | Value(json: Json)

  /** untilDate is an HTTP-date Retry-After minus the current time, in nanoseconds. */
  datatype Reply =
    | NoResponse(cause: Cause)
    | Response(code: int, retryAfter: string, untilDate: Option<int>, body: Body)

  /** What one attempt meets: its reply, and the end of the caller's context during the wait after it, if any. */
  datatype Attempt = Attempt(reply: Reply, interrupt: Option<Cause>)

  datatype Verb = Get | Put | Post | Delete

  datatype Request = Request(verb: Verb, path: string, body: Option<Json>)

  type Provider<!S> = (S, Request) -> (S, Attempt)

  datatype Error =
    | Api(status: int, name: string, raw: Body)
    | Network(cause: Cause)
    | Decode
    | ContextDone(cause: Cause)
    | Unreachable

  datatype Outcome = Received(body: Body) | Failed(error: Error)

  /** Whether decoding a non-empty 2xx body into the caller's out variable succeeds. */
  type Sink = Body -> bool

  function Discard(): Sink {
    (b: Body) => true
  }

  const MAX_ATTEMPTS: nat := 3
  const SECOND: int := 1_000_000_000

  function ParseRetryAfter(header: string, untilDate: Option<int>): int {
    if header == "" then 2 * SECOND
    else if Atoi(header).Some? && Atoi(header).value > 0 then Wrap64(Atoi(header).value * SECOND)
    else if untilDate.Some? && untilDate.value > 0 then untilDate.value
    else 2 * SECOND
  }

  /** The integer status an error body carries, if it carries one. */
  function BodyStatus(body: Body): Option<int> {
    if body.Value? && body.json.Object? && "status" in body.json.fields then AsInt(body.json.fields["status"]) else None
  }

  /** An integer status in the error body overwrites the HTTP code. */
  function EffectiveStatus(code: int, body: Body): int {
    if BodyStatus(body).Some? then BodyStatus(body).value else code
  }

  function ErrorName(body: Body): string {
    if body.Value? && body.json.Object? then StringField(body.json.fields, "name") else ""
  }

  function ApiError(code: int, body: Body): Error {
    Api(EffectiveStatus(code, body), ErrorName(body), body)
  }

  /** The statuses documented as never retried. */
  predicate IsTerminal(e: Error) {
    e.Api? && (e.status == 400 || e.status == 404 || e.status == 422 || e.status == 409)
  }

  datatype Verdict = Final(outcome: Outcome) | Transient(error: Error, wait: int)

  /** doOnce: what one reply means. Retrying looks at the HTTP code, not at the effective status. */
  function DoOnce(reply: Reply, accepts: Sink): Verdict {
    match reply
    case NoResponse(cause) => Transient(Network(cause), SECOND)
    case Response(code, retryAfter, untilDate, body) =>
      if 200 <= code < 300 then
        if body.Empty? || accepts(body) then Final(Received(body)) else Final(Failed(Decode))
      else if code == 429 then Transient(ApiError(code, body), ParseRetryAfter(retryAfter, untilDate))
      else if code >= 500 then Transient(ApiError(code, body), 2 * SECOND)
      else Final(Failed(ApiError(code, body)))
  }

  /** What the loop returns after this attempt; None when it waits and tries again. */
  function Settle(a: Attempt, accepts: Sink, attempt: nat): Option<Outcome> {
    match DoOnce(a.reply, accepts)
    case Final(outcome) => Some(outcome)
    case Transient(error, _) =>
      if attempt >= MAX_ATTEMPTS then Some(Failed(error))
      else if a.interrupt.Some? then Some(Failed(ContextDone(a.interrupt.value)))
      else None
  }

  predicate IsFailure(v: Verdict) {
    v.Transient? || v.outcome.Failed?
  }

  function WaitOf(v: Verdict): int {
    if v.Transient? then v.wait else 0
  }

  datatype Exchange = Exchange(request: Request, attempt: Attempt)

  /** One call of do: the provider afterwards, every exchange, the result, the error counter and the total wait. */
  datatype Performed<S> = Performed(state: S, log: seq<Exchange>, outcome: Outcome, failures: nat, waited: int)

  function DoFrom<S>(serve: Provider<S>, s: S, req: Request, accepts: Sink, attempt: nat): Performed<S>
    requires attempt <= MAX_ATTEMPTS
    decreases MAX_ATTEMPTS - attempt
  {
    var (s1, a) := serve(s, req);
    var v := DoOnce(a.reply, accepts);
    var failed: nat := if IsFailure(v) then 1 else 0;
    match Settle(a, accepts, attempt)
    case Some(outcome) => Performed(s1, [Exchange(req, a)], outcome, failed, 0)
    case None =>
      var rest := DoFrom(serve, s1, req, accepts, attempt + 1);
      Performed(rest.state, [Exchange(req, a)] + rest.log, rest.outcome, failed + rest.failures,
                WaitOf(v) + rest.waited)
  }

  function Perform<S>(serve: Provider<S>, s: S, req: Request, accepts: Sink): Performed<S> {
    DoFrom(serve, s, req, accepts, 1)
  }

  // What the loop promises, stated on the replies it met and without its classification or its recursion.

  /** No reply, too many requests, or a server error. */
  predicate IsTransient(r: Reply) {
    r.NoResponse? || r.code == 429 || r.code >= 500
  }

  predicate IsGood(r: Reply, accepts: Sink) {
    r.Response? && 200 <= r.code < 300 && (r.body.Empty? || accepts(r.body))
  }

  /** Nanoseconds between a transient reply and the next attempt; only a 429 is asked for its Retry-After. */
  function Pause(r: Reply): int {
    match r
    case NoResponse(_) => 1_000_000_000
    case Response(code, retryAfter, untilDate, _) =>
      var seconds := Atoi(retryAfter);
      if code != 429 || retryAfter == "" then 2_000_000_000
      else if seconds.Some? && seconds.value > 0 then Wrap64(seconds.value * 1_000_000_000)
      else if untilDate.Some? && untilDate.value > 0 then untilDate.value
      else 2_000_000_000
  }

  /** The text under a name in an object body, and "" where there is none. */
  function TextUnder(body: Body, name: string): string {
    if body.Value? && body.json.Object? && name in body.json.fields && body.json.fields[name].String?
    then body.json.fields[name].text else ""
  }

  /** What one reply is to the caller, if nothing comes after it. */
  function Meaning(r: Reply, accepts: Sink): Outcome {
    match r
    case NoResponse(cause) => Failed(Network(cause))
    case Response(code, _, _, body) =>
      if !(200 <= code < 300) then
        var written := BodyStatus(body);
        Failed(Api(if written.Some? then written.value else code, TextUnder(body, "name"), body))
      else if body.Empty? || accepts(body) then Received(body)
      else Failed(Decode)
  }

  lemma DoOnceMeans(r: Reply, accepts: Sink)
    ensures var v := DoOnce(r, accepts);
            && (v.Transient? <==> IsTransient(r))
            && (v.Transient? ==> v.wait == Pause(r) && Failed(v.error) == Meaning(r, accepts))
            && (v.Final? ==> v.outcome == Meaning(r, accepts))
            && (IsFailure(v) <==> !IsGood(r, accepts))
  {
    hide Atoi, BodyStatus;
  }

  /**
   * One attempt of the loop and what follows it. It is tried again exactly when it is transient, attempts are left
   * and the caller's context outlives the pause; otherwise its meaning is the result.
   */
  lemma AttemptMeans<S>(serve: Provider<S>, s: S, req: Request, accepts: Sink, attempt: nat)
    requires 1 <= attempt <= 3
    ensures var (s1, a) := serve(s, req);
            var d := DoFrom(serve, s, req, accepts, attempt);
            && (|d.log| > 1 <==> IsTransient(a.reply) && attempt < 3 && a.interrupt.None?)
            && (|d.log| > 1 ==>
                  var rest := DoFrom(serve, s1, req, accepts, attempt + 1);
                  && d.log == [Exchange(req, a)] + rest.log && d.state == rest.state && d.outcome == rest.outcome
                  && d.failures == 1 + rest.failures && d.waited == Pause(a.reply) + rest.waited)
            && (|d.log| <= 1 ==>
                  && d.log == [Exchange(req, a)] && d.state == s1 && d.waited == 0
                  && d.failures == (if IsGood(a.reply, accepts) then 0 else 1)
                  && d.outcome == if IsTransient(a.reply) && attempt < 3 then Failed(ContextDone(a.interrupt.value))
                                  else Meaning(a.reply, accepts))
  {
    var (s1, a) := serve(s, req);
    DoOnceMeans(a.reply, accepts);
    hide DoOnce, Pause, Meaning, IsGood, IsTransient;
    if Settle(a, accepts, attempt).None? {
      LogIsNotEmpty(serve, s1, req, accepts, attempt + 1);
    }
  }

  lemma LogIsNotEmpty<S>(serve: Provider<S>, s: S, req: Request, accepts: Sink, attempt: nat)
    requires attempt <= MAX_ATTEMPTS
    ensures DoFrom(serve, s, req, accepts, attempt).log != []
  {
    hide DoOnce;
  }

  /** The pause in numbers: only a 429 with a header waits for anything but one or two seconds. */
  lemma PauseIs(r: Reply)
    ensures r.NoResponse? ==> Pause(r) == 1_000_000_000
    ensures r.Response? && r.code >= 500 ==> Pause(r) == 2_000_000_000
    ensures r.Response? && r.code == 429 && r.retryAfter == "" ==> Pause(r) == 2_000_000_000
    ensures forall n | 0 < n <= 9_223_372_036 ::
              r.Response? && r.code == 429 && r.retryAfter == PrintInt(n) ==> Pause(r) == n * 1_000_000_000
    ensures r.Response? && r.code == 429 && r.retryAfter != "" && Atoi(r.retryAfter).None? ==>
              Pause(r) == if r.untilDate.Some? && r.untilDate.value > 0 then r.untilDate.value else 2_000_000_000
  {
    forall n | 0 < n <= 9_223_372_036 && r.Response? && r.code == 429 && r.retryAfter == PrintInt(n)
      ensures Pause(r) == n * 1_000_000_000
    {
      PrintIntParses(n);
    }
  }

  predicate TriesAgain(a: Attempt) {
    IsTransient(a.reply) && a.interrupt.None?
  }

  function TotalWait(log: seq<Exchange>): int {
    if log == [] then 0 else Pause(log[0].attempt.reply) + TotalWait(log[1..])
  }

  function FailedAttempts(log: seq<Exchange>, accepts: Sink): nat {
    if log == [] then 0
    else (if IsGood(log[0].attempt.reply, accepts) then 0 else 1) + FailedAttempts(log[1..], accepts)
  }

  /** All attempts but the last say "try again"; the last one does not, or it is the last one allowed. */
  ghost predicate IsRetryRun(log: seq<Exchange>, req: Request, allowed: nat) {
    && 1 <= |log| <= allowed
    && (forall i | 0 <= i < |log| :: log[i].request == req)
    && (forall i | 0 <= i < |log| - 1 :: TriesAgain(log[i].attempt))
    && (|log| == allowed || !TriesAgain(log[|log| - 1].attempt))
  }

  /** The result is the last attempt's own, except that an interrupted wait reports the context's end. */
  function LastResult(last: Attempt, accepts: Sink, isFinalAttempt: bool): Outcome {
    if IsTransient(last.reply) && !isFinalAttempt && last.interrupt.Some?
    then Failed(ContextDone(last.interrupt.value))
    else Meaning(last.reply, accepts)
  }

  lemma {:induction false} RetryShape<S>(serve: Provider<S>, s: S, req: Request, accepts: Sink, attempt: nat)
    requires 1 <= attempt <= MAX_ATTEMPTS
    ensures var d := DoFrom(serve, s, req, accepts, attempt);
            && IsRetryRun(d.log, req, MAX_ATTEMPTS + 1 - attempt)
            && d.outcome == LastResult(d.log[|d.log| - 1].attempt, accepts, |d.log| == MAX_ATTEMPTS + 1 - attempt)
    decreases MAX_ATTEMPTS - attempt
  {
    var (s1, a) := serve(s, req);
    DoOnceMeans(a.reply, accepts);
    hide DoOnce, Pause, Meaning, IsGood, IsTransient;
    if Settle(a, accepts, attempt).None? {
      RetryShape(serve, s1, req, accepts, attempt + 1);
      var log, rest := [Exchange(req, a)], DoFrom(serve, s1, req, accepts, attempt + 1);
      assert DoFrom(serve, s, req, accepts, attempt).log == log + rest.log;
      assert forall i | 1 <= i < |log + rest.log| :: (log + rest.log)[i] == rest.log[i - 1];
    }
  }

  lemma {:induction false} RetryAccounts<S>(serve: Provider<S>, s: S, req: Request, accepts: Sink, attempt: nat)
    requires 1 <= attempt <= MAX_ATTEMPTS
    ensures var d := DoFrom(serve, s, req, accepts, attempt);
            && d.log != []
            && d.failures == FailedAttempts(d.log, accepts)
            && d.waited == TotalWait(d.log[..|d.log| - 1])
    decreases MAX_ATTEMPTS - attempt
  {
    var (s1, a) := serve(s, req);
    DoOnceMeans(a.reply, accepts);
    hide DoOnce, Pause, Meaning, IsGood, IsTransient;
    if Settle(a, accepts, attempt).None? {
      RetryAccounts(serve, s1, req, accepts, attempt + 1);
      var d, rest := DoFrom(serve, s, req, accepts, attempt), DoFrom(serve, s1, req, accepts, attempt + 1);
      assert d.log == [Exchange(req, a)] + rest.log;
      assert d.log[1..] == rest.log;
      assert d.log[..|d.log| - 1] == [Exchange(req, a)] + rest.log[..|rest.log| - 1];
      assert d.log[..|d.log| - 1][1..] == rest.log[..|rest.log| - 1];
    }
  }

  /** The loop, in terms of the attempts it met: how many, whose result, what it counted and how long it waited. */
  lemma RetryMeetsSpec<S>(serve: Provider<S>, s: S, req: Request, accepts: Sink)
    ensures var d := Perform(serve, s, req, accepts);
            && IsRetryRun(d.log, req, 3)
            && d.outcome == LastResult(d.log[|d.log| - 1].attempt, accepts, |d.log| == 3)
            && d.outcome != Failed(Unreachable)
            && d.failures == FailedAttempts(d.log, accepts)
            && d.waited == TotalWait(d.log[..|d.log| - 1])
  {
    RetryShape(serve, s, req, accepts, 1);
    RetryAccounts(serve, s, req, accepts, 1);
  }

  /** Without cancellation the attempt count is the position of the first non-transient reply, capped at three. */
  lemma AttemptCount<S>(serve: Provider<S>, s: S, req: Request, accepts: Sink)
    ensures var log := Perform(serve, s, req, accepts).log;
            (forall i | 0 <= i < |log| :: log[i].attempt.interrupt.None?) ==>
              && 1 <= |log| <= 3
              && (forall i | 0 <= i < |log| - 1 :: IsTransient(log[i].attempt.reply))
              && (|log| < 3 ==> !IsTransient(log[|log| - 1].attempt.reply))
  {
    RetryMeetsSpec(serve, s, req, accepts);
  }

  /**
   * "Terminal errors are not retried" fails exactly on a 429 or a 5xx whose body carries a terminal status:
   * the loop classifies by the HTTP code, the error by its effective status.
   */
  lemma TerminalIsRetriedIff(code: int, retryAfter: string, untilDate: Option<int>, body: Body, accepts: Sink)
    ensures var v := DoOnce(Response(code, retryAfter, untilDate, body), accepts);
            v.Transient? && IsTerminal(v.error) <==>
              (code == 429 || code >= 500) && BodyStatus(body).Some? && BodyStatus(body).value in {400, 404, 409, 422}
  {
    hide AsInt, ParseRetryAfter;
  }

  /**
   * How much of a reply's body is read before the connection or the caller's deadline ends. What was read is used
   * without looking at the read error; a part of a JSON object is no JSON.
   */
  datatype Kept = All | Part | Nothing

  function ReadBody(sent: Body, kept: Kept): (read: Body)
    ensures read == sent || read.Empty? || read.NotJson?
  {
    if kept.Nothing? || sent.Empty? then Empty else if kept.Part? then NotJson else sent
  }

  function CutReply(reply: Reply, kept: Kept): Reply {
    match reply
    case NoResponse(_) => reply
    case Response(code, retryAfter, untilDate, body) => Response(code, retryAfter, untilDate, ReadBody(body, kept))
  }

  /**
   * One read of a 2xx reply that would decode when whole: the caller gets what was sent exactly when all of it
   * was read, and gets something else as a success exactly when nothing of it was.
   */
  lemma CutReadIff(code: int, sent: Body, kept: Kept, accepts: Sink)
    requires 200 <= code < 300 && accepts(sent) && !accepts(NotJson) && !sent.Empty?
    ensures var v := DoOnce(CutReply(Response(code, "", None, sent), kept), accepts);
            && (v == Final(Received(sent)) <==> kept.All?)
            && (v == Final(Received(Empty)) <==> kept.Nothing?)
            && (v == Final(Failed(Decode)) <==> kept.Part?)
  {
  }

  /** A provider that answers every attempt alike. */
  function Always(reply: Reply): Provider<()> {
    (s: (), req: Request) => ((), Attempt(reply, None))
  }

  lemma {:induction false} AlwaysFails(code: int, retryAfter: string, body: Body, req: Request, accepts: Sink,
                                       attempt: nat)
    requires !(200 <= code < 300) && attempt <= MAX_ATTEMPTS
    ensures DoFrom(Always(Response(code, retryAfter, None, body)), (), req, accepts, attempt).outcome
         == Failed(ApiError(code, body))
    decreases MAX_ATTEMPTS - attempt
  {
    hide ApiError, ParseRetryAfter;
    if Settle(Attempt(Response(code, retryAfter, None, body), None), accepts, attempt).None? {
      AlwaysFails(code, retryAfter, body, req, accepts, attempt + 1);
    }
  }

  /** The error body {"status": <number>}. */
  function StatusBody(literal: string): Body {
    Value(Object(map["status" := Number(literal)]))
  }

  lemma StatusBodiesRead()
    ensures BodyStatus(StatusBody("404")) == Some(404) && BodyStatus(StatusBody("409")) == Some(409)
  {
    PrintIntParses(404);
    PrintIntParses(409);
    assert PrintNat(4) == "4" && PrintNat(40) == "40";
    assert PrintInt(404) == "404" && PrintInt(409) == "409";
  }

  /** The status of an error body: its integer status, and nothing else it may hold. */
  lemma BodyStatusIs(fields: Fields, n: int)
    ensures INT64_MIN <= n <= INT64_MAX && "status" in fields && fields["status"] == Number(PrintInt(n)) ==>
              BodyStatus(Value(Object(fields))) == Some(n)
    ensures ("status" in fields ==> !fields["status"].Number?) ==> BodyStatus(Value(Object(fields))) == None
    ensures BodyStatus(Empty) == None && BodyStatus(NotJson) == None
  {
    PrintIntParses(n);
  }

  /** Such a reply: a 503 whose body says 404 is retried, and its error is terminal. */
  lemma TerminalIsRetried(accepts: Sink)
    ensures var v := DoOnce(Response(503, "", None, StatusBody("404")), accepts);
            v.Transient? && v.error == Api(404, "", StatusBody("404")) && IsTerminal(v.error)
  {
    hide BodyStatus;
    StatusBodiesRead();
  }

  /** A delay of n seconds is honoured exactly up to the bound at which int64 nanoseconds overflow. */
  lemma RetryAfterSeconds(n: int, body: Body, accepts: Sink)
    requires n > 0
    ensures DoOnce(Response(429, PrintInt(n), None, body), accepts) == Transient(ApiError(429, body), n * SECOND)
       <==> n <= INT64_MAX / SECOND
    ensures INT64_MAX / SECOND == 9223372036
  {
    PrintIntParses(n);
  }

  /** The only replies asked for a Retry-After carry none. */
  predicate HasNoRetryAfter(log: seq<Exchange>) {
    forall i | 0 <= i < |log| ::
      log[i].attempt.reply.Response? && log[i].attempt.reply.code == 429 ==> log[i].attempt.reply.retryAfter == ""
  }

  /** How many attempts met no reply. */
  function Lost(log: seq<Exchange>): nat {
    if log == [] then 0 else (if log[0].attempt.reply.NoResponse? then 1 else 0) + Lost(log[1..])
  }

  lemma {:induction false} DefaultWaits(log: seq<Exchange>)
    requires HasNoRetryAfter(log)
    ensures TotalWait(log) == Lost(log) * SECOND + (|log| - Lost(log)) * (2 * SECOND)
  {
    if log != [] {
      assert forall i | 0 <= i < |log[1..]| :: log[1..][i] == log[i + 1];
      DefaultWaits(log[1..]);
    }
  }

  /**
   * Unless a 429 carries a Retry-After header, a call waits one second after each lost attempt and two after each
   * failed reply, whatever headers those carry.
   */
  lemma WaitsWithoutHeader<S>(serve: Provider<S>, s: S, req: Request, accepts: Sink)
    ensures var d := Perform(serve, s, req, accepts);
            && d.log != []
            && (HasNoRetryAfter(d.log) ==>
                  var waits := d.log[..|d.log| - 1];
                  d.waited == Lost(waits) * SECOND + (|waits| - Lost(waits)) * (2 * SECOND))
  {
    hide DoOnce, DoFrom, Pause;
    RetryMeetsSpec(serve, s, req, accepts);
    var d := Perform(serve, s, req, accepts);
    var waits := d.log[..|d.log| - 1];
    if HasNoRetryAfter(d.log) {
      assert forall i | 0 <= i < |waits| :: waits[i] == d.log[i];
      DefaultWaits(waits);
    }
  }

  /** Client: the provider it talks to, its configuration, and everything it has exchanged so far. */
  class Client<S> {
    const serve: Provider<S>
    const webhookSecret: string
    const defaultCompany: string
    var state: S
    ghost var log: seq<Exchange>

    constructor (serve: Provider<S>, state: S, webhookSecret: string, defaultCompany: string)
      ensures this.serve == serve && this.state == state && log == []
      ensures this.webhookSecret == webhookSecret && this.defaultCompany == defaultCompany
    {
      this.serve := serve;
      this.state := state;
      this.webhookSecret := webhookSecret;
      this.defaultCompany := defaultCompany;
      log := [];
    }

    method Do(req: Request, accepts: Sink) returns (outcome: Outcome, failures: nat, waited: int)
      modifies this
      ensures var d := Perform(serve, old(state), req, accepts);
              && state == d.state
              && log == old(log) + d.log
              && outcome == d.outcome && failures == d.failures && waited == d.waited
    {
      hide ApiError, ParseRetryAfter;
      outcome, failures, waited := Failed(Unreachable), 0, 0;
      ghost var whole := Perform(serve, state, req, accepts);
      var attempt, done := 1, false;
      while !done && attempt <= MAX_ATTEMPTS
        invariant 1 <= attempt && (!done ==> attempt <= MAX_ATTEMPTS)
        invariant done ==>
            && state == whole.state && log == old(log) + whole.log
            && outcome == whole.outcome && failures == whole.failures && waited == whole.waited
        invariant !done ==>
            var rest := DoFrom(serve, state, req, accepts, attempt);
            && whole.state == rest.state && old(log) + whole.log == log + rest.log
            && whole.outcome == rest.outcome
            && whole.failures == failures + rest.failures && whole.waited == waited + rest.waited
        decreases MAX_ATTEMPTS + 1 - attempt, !done
      {
        var (next, a) := serve(state, req);
        state, log := next, log + [Exchange(req, a)];
        var verdict := DoOnce(a.reply, accepts);
        if IsFailure(verdict) {
          failures := failures + 1;
        }
        match verdict {
          case Final(result) =>
            outcome, done := result, true;
          case Transient(error, wait) =>
            if attempt == MAX_ATTEMPTS {
              outcome, done := Failed(error), true;
            } else if a.interrupt.Some? {
              outcome, done := Failed(ContextDone(a.interrupt.value)), true;
            } else {
              waited := waited + wait;
              attempt := attempt + 1;
            }
        }
      }
    }
  }
}
