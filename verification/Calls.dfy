/**
 * One webhook call as a machine that advances by one provider attempt at a time. The machine is the
 * specification: the sequential methods refine it, and concurrent calls interleave its steps.
 */
module Calls {
  import opened Options
  import opened Json
  import opened Wire
  import opened Webhooks

  datatype Task =
    | Ensure(input: EnsureInput)
    | Observe(id: string)
    | Destroy(ref: string, desired: EnsureInput)

  datatype Report =
    | Refused(why: Refusal)
    | Ensured(id: string, insecureSsl: bool, adopted: bool, updated: bool)
    | Observed(id: string, insecureSsl: bool)
    | Deleted(alreadyAbsent: bool)

  datatype Phase = Reading | Writing(fields: Fields) | Confirming | Deleting

  datatype Call = Active(task: Task, phase: Phase, attempt: nat) | Done(report: Report)

  function TargetId(task: Task): string {
    match task
    case Ensure(input) => input.id
    case Observe(id) => id
    case Destroy(ref, _) => ref
  }

  predicate Migrates(task: Task) {
    task.Ensure? && task.input.setHmac
  }

  predicate Fits(phase: Phase, task: Task) {
    match task
    case Ensure(_) => !phase.Deleting?
    case Observe(_) => phase.Reading?
    case Destroy(_, _) => phase.Deleting?
  }

  predicate WellFormed(c: Call) {
    c.Active? ==> 1 <= c.attempt <= MAX_ATTEMPTS && Fits(c.phase, c.task)
  }

  /** Everything decided before the first request. */
  function Start(task: Task, secret: string): (c: Call)
    ensures WellFormed(c)
  {
    match task
    case Ensure(input) =>
      (match ValidateEnsure(input, secret)
       case Some(why) => Done(Refused(why))
       case None => Active(task, Reading, 1))
    case Observe(id) =>
      if ValidWebhookId(id) then Active(task, Reading, 1) else Done(Refused(InvalidId))
    case Destroy(ref, desired) =>
      if desired.ref != "" && desired.ref != ref then Done(Refused(RefMismatch))
      else if desired.id != "" && desired.id != ref then Done(Refused(TargetMismatch))
      else if !ValidWebhookId(ref) then Done(Refused(InvalidId))
      else if desired.confirmId != ref then Done(Refused(ConfirmMismatch))
      else Active(task, Deleting, 1)
  }

  function Envelope(fields: Fields): Json {
    Object(map[ENVELOPE := Object(fields)])
  }

  function PhaseRequest(id: string, phase: Phase): Request {
    match phase
    case Writing(fields) => Request(Put, WebhookPath(id), Some(Envelope(fields)))
    case Deleting => Request(Wire.Delete, WebhookPath(id), None)
    case _ => Request(Get, WebhookPath(id), None)
  }

  function RequestOf(c: Call): Request
    requires c.Active?
  {
    PhaseRequest(TargetId(c.task), c.phase)
  }

  function SinkOf(phase: Phase): Sink {
    if phase.Reading? || phase.Confirming? then AcceptsDocument else Discard()
  }

  function AfterRead(task: Task, d: Fields, secret: string): Call
    requires !task.Destroy?
  {
    if DocumentId(d) != Some(TargetId(task)) then Done(Refused(IdMismatch))
    else
      match InsecureSsl(d)
      case None => Done(Refused(InsecureSslOmitted))
      case Some(insecure) =>
        if task.Observe? then Done(Observed(task.id, insecure))
        else if !insecure && !Migrates(task) then Done(Ensured(task.input.id, false, true, false))
        else if insecure && !Migrates(task) && !SecretMatches(d, secret) then Done(Refused(MigrationRequired))
        else
          match DesiredFields(d, Migrates(task), secret)
          case None => Done(Refused(HeadersNotPreserved))
          case Some(fields) => Active(task, Writing(fields), 1)
  }

  function AfterConfirm(task: Task, d: Fields): (c: Call)
    requires task.Ensure?
    ensures c.Done?
  {
    if DocumentId(d) != Some(task.input.id) then Done(Refused(IdMismatch))
    else if InsecureSsl(d) != Some(false) then Done(Refused(TlsNotConfirmed))
    else if Migrates(task) && HeadersOf(d).BadHeaders? then Done(Refused(ConfirmationInvalid))
    else if Migrates(task) && HasAuthorization(HeadersOf(d)) then Done(Refused(MigrationNotConfirmed))
    else Done(Ensured(task.input.id, false, true, true))
  }

  /** What the code after do makes of its result. */
  function Continue(task: Task, phase: Phase, outcome: Outcome, secret: string): (next: Call)
    requires Fits(phase, task)
    ensures WellFormed(next) && (next.Active? ==> next.task == task && next.attempt == 1)
    ensures next.Active? ==> PhaseRank(next.phase) < PhaseRank(phase)
  {
    match outcome
    case Failed(error) =>
      if phase.Deleting? && error.Api? && error.status == 404 then Done(Deleted(true))
      else Done(Refused(Sanitize(error)))
    case Received(body) =>
      match phase
      case Reading => AfterRead(task, DocumentOf(body), secret)
      case Writing(_) => Active(task, Confirming, 1)
      case Confirming => AfterConfirm(task, DocumentOf(body))
      case Deleting => Done(Deleted(false))
  }

  /** One attempt: wait and try the same request again, or move on. */
  function Resume(c: Call, a: Attempt, secret: string): (next: Call)
    requires c.Active? && WellFormed(c)
    ensures WellFormed(next) && (next.Active? ==> next.task == c.task) && Budget(next) < Budget(c)
  {
    match Settle(a, SinkOf(c.phase), c.attempt)
    case None => Active(c.task, c.phase, c.attempt + 1)
    case Some(outcome) => Continue(c.task, c.phase, outcome, secret)
  }

  function PhaseRank(phase: Phase): nat {
    match phase
    case Reading => 2
    case Writing(_) => 1
    case _ => 0
  }

  /** An upper bound on the attempts still to come. */
  function Budget(c: Call): nat
    requires WellFormed(c)
  {
    if c.Done? then 0 else MAX_ATTEMPTS * PhaseRank(c.phase) + MAX_ATTEMPTS + 1 - c.attempt
  }

  datatype Run<S> = Run(state: S, log: seq<Exchange>, report: Report)

  function RunCall<S>(serve: Provider<S>, s: S, c: Call, secret: string): Run<S>
    requires WellFormed(c)
    decreases Budget(c)
  {
    if c.Done? then Run(s, [], c.report)
    else
      var (s1, a) := serve(s, RequestOf(c));
      var rest := RunCall(serve, s1, Resume(c, a, secret), secret);
      Run(rest.state, [Exchange(RequestOf(c), a)] + rest.log, rest.report)
  }

  function RunTask<S>(serve: Provider<S>, s: S, task: Task, secret: string): Run<S> {
    RunCall(serve, s, Start(task, secret), secret)
  }

  /** Unfolding one step. */
  lemma RunStep<S>(serve: Provider<S>, s: S, c: Call, secret: string)
    requires c.Active? && WellFormed(c)
    ensures var (s1, a) := serve(s, RequestOf(c));
            var r, rest := RunCall(serve, s, c, secret), RunCall(serve, s1, Resume(c, a, secret), secret);
            && r.state == rest.state && r.report == rest.report
            && r.log == [Exchange(RequestOf(c), a)] + rest.log
            && r.log[0] == Exchange(RequestOf(c), a) && r.log[1..] == rest.log
  {
  }

  /** What comes after the retry loop of a phase. */
  function RunAfter<S>(serve: Provider<S>, d: Performed<S>, task: Task, phase: Phase, secret: string): Run<S>
    requires Fits(phase, task)
  {
    RunCall(serve, d.state, Continue(task, phase, d.outcome, secret), secret)
  }

  /** The machine, from any attempt of a phase, is the retry loop followed by what comes after it. */
  lemma {:induction false} RunPhase<S>(serve: Provider<S>, s: S, c: Call, secret: string)
    requires c.Active? && WellFormed(c)
    ensures var d := DoFrom(serve, s, RequestOf(c), SinkOf(c.phase), c.attempt);
            var rest := RunAfter(serve, d, c.task, c.phase, secret);
            RunCall(serve, s, c, secret) == Run(rest.state, d.log + rest.log, rest.report)
    decreases MAX_ATTEMPTS - c.attempt
  {
    hide Continue, WebhookPath, DoOnce, SinkOf;
    RunStep(serve, s, c, secret);
    var req, sink := RequestOf(c), SinkOf(c.phase);
    var (s1, a) := serve(s, req);
    var x := [Exchange(req, a)];
    match Settle(a, sink, c.attempt)
    case Some(outcome) =>
      var d := DoFrom(serve, s, req, sink, c.attempt);
      assert d.state == s1 && d.log == x && d.outcome == outcome;
      assert Resume(c, a, secret) == Continue(c.task, c.phase, outcome, secret);
    case None =>
      var again := Active(c.task, c.phase, c.attempt + 1);
      assert Resume(c, a, secret) == again;
      RunPhase(serve, s1, again, secret);
      var d := DoFrom(serve, s1, req, sink, again.attempt);
      var rest := RunAfter(serve, d, c.task, c.phase, secret);
      assert x + (d.log + rest.log) == (x + d.log) + rest.log;
  }

  // The trace of one ensure.

  /** The document a reply to a GET shows, if the read succeeded. */
  function Shown(a: Attempt): Option<Fields> {
    if IsGood(a.reply, AcceptsDocument) then Some(DocumentOf(a.reply.body)) else None
  }

  ghost predicate IsPhaseLog(log: seq<Exchange>, req: Request) {
    |log| <= MAX_ATTEMPTS && forall i | 0 <= i < |log| :: log[i].request == req
  }

  /** Why a phase fails, from the last attempt it met. */
  function ReasonFor(a: Attempt, isFinalAttempt: bool): Refusal {
    if IsTransient(a.reply) && !isFinalAttempt && a.interrupt.Some? then ContextReason(a.interrupt.value)
    else
      match a.reply
      case NoResponse(cause) => ContextReason(cause)
      case Response(code, _, _, body) =>
        if 200 <= code < 300 then ProviderFailed else ProviderStatus(EffectiveStatus(code, body))
  }

  function ContextReason(cause: Cause): Refusal {
    if cause == Canceled then ProviderCanceled
    else if cause == DeadlineExceeded then ProviderTimedOut
    else ProviderFailed
  }

  function LastOf(log: seq<Exchange>): Attempt
    requires log != []
  {
    log[|log| - 1].attempt
  }

  /** The report of a phase whose last attempt failed. */
  function FailureOf(log: seq<Exchange>): Report
    requires log != []
  {
    Refused(ReasonFor(LastOf(log), |log| == 3))
  }

  /** The documents that call for a PUT. */
  predicate CallsForUpdate(d: Fields, input: EnsureInput, secret: string) {
    && ShowsId(d, input.id)
    && (if input.setHmac then (ShowsSsl(d, true) || ShowsSsl(d, false)) && ShowsHeaders(d)
        else ShowsSsl(d, true) && ShowsSecret(d, secret))
  }

  /** The report of a call that stops after reading a document. */
  ghost predicate StopsAfter(d: Fields, input: EnsureInput, report: Report) {
    if !ShowsId(d, input.id) then report == Refused(IdMismatch)
    else if !ShowsSsl(d, true) && !ShowsSsl(d, false) then report == Refused(InsecureSslOmitted)
    else if input.setHmac then report == Refused(HeadersNotPreserved)
    else if ShowsSsl(d, false) then report == Ensured(input.id, false, true, false)
    else report == Refused(MigrationRequired)
  }

  /** The report of a call whose confirming read shows a document. */
  ghost predicate Confirms(d: Fields, input: EnsureInput, report: Report) {
    if !ShowsId(d, input.id) then report == Refused(IdMismatch)
    else if !ShowsSsl(d, false) then report == Refused(TlsNotConfirmed)
    else if input.setHmac && !ShowsHeaders(d) then report == Refused(ConfirmationInvalid)
    else if input.setHmac && ShowsAuthorization(d) then report == Refused(MigrationNotConfirmed)
    else report == Ensured(input.id, false, true, true)
  }

  /** The confirming phase, in terms of the last document it read. */
  ghost predicate IsCheck(checks: seq<Exchange>, report: Report, input: EnsureInput) {
    && checks != [] && IsPhaseLog(checks, Request(Get, "/v2/webhooks/" + input.id, None))
    && match Shown(LastOf(checks))
       case None => report == FailureOf(checks)
       case Some(d) => Confirms(d, input, report)
  }

  /** The writing phase: the PUT of this object, and a confirming phase exactly when its last reply was a 2xx. */
  ghost predicate IsUpdate(puts: seq<Exchange>, checks: seq<Exchange>, report: Report, input: EnsureInput,
                           written: Fields) {
    && puts != []
    && IsPhaseLog(puts, Request(Put, "/v2/webhooks/" + input.id, Some(Object(map["webHook" := Object(written)]))))
    && if IsGood(LastOf(puts).reply, Discard()) then IsCheck(checks, report, input)
       else checks == [] && report == FailureOf(puts)
  }

  /** A whole ensure, in terms of the replies it met. */
  ghost predicate IsEnsureTrace(gets: seq<Exchange>, puts: seq<Exchange>, checks: seq<Exchange>, report: Report,
                                input: EnsureInput, secret: string, written: Fields) {
    && (gets != [] <==> IsAcceptable(input, secret))
    && (gets == [] ==>
          puts == [] && checks == [] && report.Refused? && IsGround(report.why, input, secret))
    && (gets != [] ==>
          && IsPhaseLog(gets, Request(Get, "/v2/webhooks/" + input.id, None))
          && match Shown(LastOf(gets))
             case None => puts == [] && checks == [] && report == FailureOf(gets)
             case Some(d) =>
               if CallsForUpdate(d, input, secret) then
                 IsFrameOf(d, input.setHmac, secret, written) && IsUpdate(puts, checks, report, input, written)
               else puts == [] && checks == [] && StopsAfter(d, input, report))
  }

  lemma LastShows<S>(serve: Provider<S>, s: S, req: Request)
    ensures var d := Perform(serve, s, req, AcceptsDocument);
            && d.log != [] && IsPhaseLog(d.log, req)
            && (d.outcome.Received? <==> Shown(LastOf(d.log)).Some?)
            && (d.outcome.Received? ==> Shown(LastOf(d.log)) == Some(DocumentOf(d.outcome.body)))
            && (d.outcome.Failed? ==> Refused(Sanitize(d.outcome.error)) == FailureOf(d.log))
  {
    RetryMeetsSpec(serve, s, req, AcceptsDocument);
    hide DoFrom, DoOnce, BodyStatus, TextUnder, AcceptsDocument, DocumentOf;
  }

  lemma LastWrites<S>(serve: Provider<S>, s: S, req: Request)
    ensures var d := Perform(serve, s, req, Discard());
            && d.log != [] && IsPhaseLog(d.log, req)
            && (d.outcome.Received? <==> IsGood(LastOf(d.log).reply, Discard()))
            && (d.outcome.Failed? ==> Refused(Sanitize(d.outcome.error)) == FailureOf(d.log))
  {
    RetryMeetsSpec(serve, s, req, Discard());
    hide DoFrom, DoOnce, BodyStatus, TextUnder;
  }

  lemma PhaseRequestIs(id: string, phase: Phase)
    requires ValidWebhookId(id)
    ensures PhaseRequest(id, phase) ==
              match phase
              case Writing(fields) => Request(Put, "/v2/webhooks/" + id, Some(Object(map["webHook" := Object(fields)])))
              case Deleting => Request(Wire.Delete, "/v2/webhooks/" + id, None)
              case _ => Request(Get, "/v2/webhooks/" + id, None)
  {
    ValidIdPath(id);
    hide WebhookPath;
  }

  /** The confirmation phase decides between success and failure on what its last GET showed. */
  lemma ConfirmTrace<S>(serve: Provider<S>, s: S, input: EnsureInput, secret: string)
    requires ValidWebhookId(input.id)
    ensures var r := RunCall(serve, s, Active(Ensure(input), Confirming, 1), secret);
            IsCheck(r.log, r.report, input)
  {
    var c := Active(Ensure(input), Confirming, 1);
    RunPhase(serve, s, c, secret);
    LastShows(serve, s, RequestOf(c));
    PhaseRequestIs(input.id, Confirming);
    var d := Perform(serve, s, RequestOf(c), AcceptsDocument);
    assert d.log + [] == d.log;
    if d.outcome.Received? {
      ConfirmDecides(input, DocumentOf(d.outcome.body));
    }
    hide AfterConfirm, Confirms, Sanitize, FailureOf, Shown, IsPhaseLog, PhaseRequest, DoFrom, ValidWebhookId;
  }

  lemma ConfirmDecides(input: EnsureInput, d: Fields)
    ensures Confirms(d, input, AfterConfirm(Ensure(input), d).report)
  {
    AccessorsRead(d);
    hide DocumentId, InsecureSsl, HeadersOf, HasAuthorization, ShowsId, ShowsSsl, ShowsHeaders, ShowsAuthorization;
    assert ShowsId(d, input.id) <==> DocumentId(d) == Some(input.id);
    assert ShowsSsl(d, false) <==> InsecureSsl(d) == Some(false);
  }

  lemma WriteTrace<S>(serve: Provider<S>, s: S, input: EnsureInput, secret: string, fields: Fields)
    returns (puts: seq<Exchange>, checks: seq<Exchange>)
    requires ValidWebhookId(input.id)
    ensures var r := RunCall(serve, s, Active(Ensure(input), Writing(fields), 1), secret);
            r.log == puts + checks && IsUpdate(puts, checks, r.report, input, fields)
  {
    var c := Active(Ensure(input), Writing(fields), 1);
    RunPhase(serve, s, c, secret);
    LastWrites(serve, s, RequestOf(c));
    PhaseRequestIs(input.id, Writing(fields));
    hide Sanitize, FailureOf, IsPhaseLog, PhaseRequest, DoFrom, ValidWebhookId, IsGood, IsCheck;
    var d := Perform(serve, s, RequestOf(c), Discard());
    puts := d.log;
    if d.outcome.Received? {
      ConfirmTrace(serve, d.state, input, secret);
      checks := RunCall(serve, d.state, Active(Ensure(input), Confirming, 1), secret).log;
    } else {
      checks := [];
    }
  }

  /** What the first read decides. */
  lemma ReadDecides(input: EnsureInput, d: Fields, secret: string)
    ensures var next := AfterRead(Ensure(input), d, secret);
            && (CallsForUpdate(d, input, secret) <==> next.Active?)
            && (next.Active? ==>
                  next.phase.Writing? && next.attempt == 1 && next.task == Ensure(input)
                  && IsFrameOf(d, input.setHmac, secret, next.phase.fields))
            && (next.Done? ==> StopsAfter(d, input, next.report))
  {
    AccessorsRead(d);
    DesiredFieldsFrame(d, input.setHmac, secret);
    hide DocumentId, InsecureSsl, HeadersOf, SecretMatches, DesiredFields, IsFrameOf, ShowsId, ShowsSsl, ShowsSecret,
         ShowsHeaders;
    assert ShowsId(d, input.id) <==> DocumentId(d) == Some(input.id);
    assert ShowsSsl(d, false) <==> InsecureSsl(d) == Some(false);
    assert ShowsSsl(d, true) <==> InsecureSsl(d) == Some(true);
    assert ShowsSecret(d, secret) <==> SecretMatches(d, secret);
  }

  lemma AcceptableId(input: EnsureInput, secret: string)
    requires IsAcceptable(input, secret)
    ensures ValidWebhookId(input.id)
  {
  }

  /** The whole of an ensure that passed its validation. */
  lemma ReadTrace<S>(serve: Provider<S>, s: S, input: EnsureInput, secret: string)
    returns (gets: seq<Exchange>, puts: seq<Exchange>, checks: seq<Exchange>, written: Fields)
    requires IsAcceptable(input, secret)
    ensures var r := RunCall(serve, s, Active(Ensure(input), Reading, 1), secret);
            && r.log == gets + puts + checks
            && IsEnsureTrace(gets, puts, checks, r.report, input, secret, written)
  {
    hide AfterRead, IsAcceptable, WebhookPath, DoOnce, CallsForUpdate, StopsAfter, FailureOf, IsUpdate, IsFrameOf,
         Sanitize, DoFrom, ValidWebhookId, PhaseRequest, IsPhaseLog, Shown, DocumentOf, AcceptsDocument;
    var task := Ensure(input);
    var c := Active(task, Reading, 1);
    AcceptableId(input, secret);
    PhaseRequestIs(input.id, Reading);
    RunPhase(serve, s, c, secret);
    LastShows(serve, s, RequestOf(c));
    var d := Perform(serve, s, RequestOf(c), AcceptsDocument);
    gets, puts, checks, written := d.log, [], [], map[];
    assert d.log + [] + [] == d.log + [];
    if d.outcome.Received? {
      var next := AfterRead(task, DocumentOf(d.outcome.body), secret);
      ReadDecides(input, DocumentOf(d.outcome.body), secret);
      if next.Active? {
        written := next.phase.fields;
        puts, checks := WriteTrace(serve, d.state, input, secret, written);
        assert d.log + puts + checks == d.log + (puts + checks);
      }
    }
  }

  /** For every provider: GETs, then PUTs, then GETs, each phase within three attempts, and nothing else. */
  lemma EnsureTrace<S>(serve: Provider<S>, s: S, input: EnsureInput, secret: string)
    ensures var r := RunTask(serve, s, Ensure(input), secret);
            exists gets, puts, checks, written ::
              && r.log == gets + puts + checks
              && IsEnsureTrace(gets, puts, checks, r.report, input, secret, written)
  {
    ValidatesIff(input, secret);
    hide ValidateEnsure, IsAcceptable, IsGround;
    var r := RunTask(serve, s, Ensure(input), secret);
    if ValidateEnsure(input, secret).Some? {
      assert r.log == [] + [] + [];
      assert IsEnsureTrace([], [], [], r.report, input, secret, map[]);
    } else {
      var gets, puts, checks, written := ReadTrace(serve, s, input, secret);
      assert IsEnsureTrace(gets, puts, checks, r.report, input, secret, written);
    }
  }

  /** One observe, in terms of the replies it met. */
  ghost predicate IsObserveTrace(log: seq<Exchange>, report: Report, id: string) {
    && (log != [] <==> ValidWebhookId(id))
    && (log == [] ==> report == Refused(InvalidId))
    && (log != [] ==>
          && IsPhaseLog(log, Request(Get, "/v2/webhooks/" + id, None))
          && match Shown(LastOf(log))
             case None => report == FailureOf(log)
             case Some(d) =>
               if !ShowsId(d, id) then report == Refused(IdMismatch)
               else if ShowsSsl(d, true) then report == Observed(id, true)
               else if ShowsSsl(d, false) then report == Observed(id, false)
               else report == Refused(InsecureSslOmitted))
  }

  /** For every provider: at most three GETs of the exact path; the id and the flag reported are those shown. */
  lemma ObserveTrace<S>(serve: Provider<S>, s: S, id: string, secret: string)
    ensures var r := RunTask(serve, s, Observe(id), secret); IsObserveTrace(r.log, r.report, id)
  {
    if ValidWebhookId(id) {
      PhaseRequestIs(id, Reading);
      hide ValidWebhookId, WebhookPath, DoOnce, FailureOf, Sanitize, DoFrom, PhaseRequest, IsPhaseLog, AfterRead;
      var c := Active(Observe(id), Reading, 1);
      RunPhase(serve, s, c, secret);
      LastShows(serve, s, RequestOf(c));
      var d := Perform(serve, s, RequestOf(c), AcceptsDocument);
      assert d.log + [] == d.log;
      if d.outcome.Received? {
        ObserveDecides(id, DocumentOf(d.outcome.body), secret);
      }
    }
  }

  lemma ObserveDecides(id: string, d: Fields, secret: string)
    ensures AfterRead(Observe(id), d, secret) ==
              Done(if !ShowsId(d, id) then Refused(IdMismatch)
                   else if ShowsSsl(d, true) then Observed(id, true)
                   else if ShowsSsl(d, false) then Observed(id, false)
                   else Refused(InsecureSslOmitted))
  {
    AccessorsRead(d);
    hide DocumentId, InsecureSsl, ShowsId, ShowsSsl;
    assert ShowsId(d, id) <==> DocumentId(d) == Some(id);
    assert ShowsSsl(d, false) <==> InsecureSsl(d) == Some(false);
    assert ShowsSsl(d, true) <==> InsecureSsl(d) == Some(true);
  }

  // The trace of one destroy.

  /** The last reply reads as "the webhook is gone". */
  predicate ReadsAsGone(a: Attempt, isFinalAttempt: bool) {
    && a.reply.Response?
    && (200 <= a.reply.code < 300
        || (EffectiveStatus(a.reply.code, a.reply.body) == 404
            && (isFinalAttempt || !IsTransient(a.reply))))
  }

  /** One destroy, in terms of the replies it met. */
  ghost predicate IsDestroyTrace(log: seq<Exchange>, report: Report, ref: string, desired: EnsureInput) {
    && (log != [] <==>
          && ValidWebhookId(ref) && desired.confirmId == ref
          && desired.ref in {"", ref} && desired.id in {"", ref})
    && (log == [] ==>
          || (report == Refused(RefMismatch) && desired.ref !in {"", ref})
          || (report == Refused(TargetMismatch) && desired.id !in {"", ref})
          || (report == Refused(InvalidId) && !ValidWebhookId(ref))
          || (report == Refused(ConfirmMismatch) && desired.confirmId != ref))
    && (log != [] ==>
          && IsPhaseLog(log, Request(Wire.Delete, "/v2/webhooks/" + ref, None))
          && report == if IsGood(LastOf(log).reply, Discard()) then Deleted(false)
                       else if ReadsAsGone(LastOf(log), |log| == 3) then Deleted(true)
                       else FailureOf(log))
  }

  /** For every provider: refused by a guard without a request, or at most three DELETEs, the last of which decides. */
  lemma DestroyTrace<S>(serve: Provider<S>, s: S, ref: string, desired: EnsureInput, secret: string)
    ensures var r := RunTask(serve, s, Destroy(ref, desired), secret); IsDestroyTrace(r.log, r.report, ref, desired)
  {
    var task := Destroy(ref, desired);
    var c := Start(task, secret);
    if c.Active? {
      PhaseRequestIs(ref, Deleting);
      hide ValidWebhookId, WebhookPath, DoOnce, PhaseRequest, DoFrom;
      RunPhase(serve, s, c, secret);
      LastWrites(serve, s, RequestOf(c));
      RetryMeetsSpec(serve, s, RequestOf(c), Discard());
      var d := Perform(serve, s, RequestOf(c), Discard());
      assert d.log + [] == d.log;
      GoneReads(LastOf(d.log), |d.log| == 3);
      hide Sanitize, FailureOf, LastResult, ReadsAsGone, IsGood;
    }
  }

  lemma GoneReads(a: Attempt, isFinalAttempt: bool)
    requires isFinalAttempt || !TriesAgain(a)
    ensures var o := LastResult(a, Discard(), isFinalAttempt);
            ReadsAsGone(a, isFinalAttempt) && !IsGood(a.reply, Discard()) <==>
              o.Failed? && o.error.Api? && o.error.status == 404 && !IsGood(a.reply, Discard())
  {
    hide BodyStatus, TextUnder;
  }

  /**
   * The effective status decides here too: against a provider that answers every request with the same error,
   * destroy reports the webhook gone exactly when that status is 404, even if the HTTP code is a 5xx.
   */
  lemma ErrorReadsAsGoneIff(code: int, retryAfter: string, body: Body,
                            ref: string, desired: EnsureInput, secret: string)
    requires !(200 <= code < 300)
    requires Start(Destroy(ref, desired), secret).Active?
    ensures RunTask(Always(Response(code, retryAfter, None, body)), (), Destroy(ref, desired), secret).report.Deleted?
       <==> EffectiveStatus(code, body) == 404
  {
    hide ValidWebhookId, WebhookPath, EffectiveStatus, DoFrom, Always;
    var serve := Always(Response(code, retryAfter, None, body));
    RunPhase(serve, (), Start(Destroy(ref, desired), secret), secret);
    AlwaysFails(code, retryAfter, body, PhaseRequest(ref, Deleting), Discard(), 1);
  }

  /** A 503 whose body says 404, sent to every attempt, is such an error: the webhook is reported absent. */
  lemma ServerErrorReadsAsGone(ref: string, desired: EnsureInput, secret: string)
    requires Start(Destroy(ref, desired), secret).Active?
    ensures var serve := Always(Response(503, "", None, StatusBody("404")));
            RunTask(serve, (), Destroy(ref, desired), secret).report.Deleted?
  {
    hide RunTask, Start, BodyStatus;
    StatusBodiesRead();
    ErrorReadsAsGoneIff(503, "", StatusBody("404"), ref, desired, secret);
  }

  /** The requests a task may make: its exact path, never POST, DELETE only to destroy, PUT only to ensure. */
  predicate IsAllowed(req: Request, task: Task) {
    && req.path == WebhookPath(TargetId(task))
    && req.verb != Post && (req.verb == Wire.Delete <==> task.Destroy?) && (req.verb == Put ==> task.Ensure?)
  }

  lemma {:induction false} StaysOnPath<S>(serve: Provider<S>, s: S, c: Call, secret: string)
    requires WellFormed(c)
    ensures var log := RunCall(serve, s, c, secret).log;
            if c.Done? then log == [] else forall i | 0 <= i < |log| :: IsAllowed(log[i].request, c.task)
    decreases Budget(c)
  {
    hide Resume, WebhookPath;
    if c.Active? {
      RunStep(serve, s, c, secret);
      var (s1, a) := serve(s, RequestOf(c));
      var next := Resume(c, a, secret);
      StaysOnPath(serve, s1, next, secret);
      var log, rest := RunCall(serve, s, c, secret).log, RunCall(serve, s1, next, secret).log;
      assert IsAllowed(log[0].request, c.task);
      forall i | 1 <= i < |log| ensures IsAllowed(log[i].request, c.task) {
        assert log[i] == rest[i - 1];
      }
    }
  }

  // Non-interference.

  datatype HeaderFacts = AbsentHeaders | MalformedHeaders | HeadersPresent(authorization: bool)

  /** All that one document may tell the caller. */
  datatype DocumentFacts = DocumentFacts(
    idMatches: bool, insecureSsl: Option<bool>, secretMatches: bool, headers: HeaderFacts)

  datatype ReplyFacts =
    | NoReply(cause: Cause)
    | Denied(transient: bool, status: int)
    | Acknowledged
    | Answered(decodes: bool, document: DocumentFacts)

  datatype Facts = Facts(reply: ReplyFacts, interrupt: Option<Cause>)

  function HeaderFactsOf(h: Headers): HeaderFacts {
    match h
    case NoHeaders => AbsentHeaders
    case BadHeaders => MalformedHeaders
    case HeaderMap(_) => HeadersPresent(HasAuthorization(h))
  }

  function DocumentFactsOf(d: Fields, id: string, secret: string): DocumentFacts {
    DocumentFacts(DocumentId(d) == Some(id), InsecureSsl(d), SecretMatches(d, secret), HeaderFactsOf(HeadersOf(d)))
  }

  /** What one exchange may tell the caller; a 2xx reply to a PUT or a DELETE tells only that it was one. */
  function FactsOf(x: Exchange, id: string, secret: string): Facts {
    Facts(
      match x.attempt.reply
      case NoResponse(cause) => NoReply(cause)
      case Response(code, _, _, body) =>
        if !(200 <= code < 300) then Denied(code == 429 || code >= 500, EffectiveStatus(code, body))
        else if x.request.verb != Get then Acknowledged
        else Answered(body.Empty? || AcceptsDocument(body), DocumentFactsOf(DocumentOf(body), id, secret)),
      x.attempt.interrupt)
  }

  /** Two calls that differ at most in the object one of them is about to write. */
  predicate Alike(c1: Call, c2: Call) {
    match (c1, c2)
    case (Active(t1, p1, n1), Active(t2, p2, n2)) =>
      t1 == t2 && n1 == n2 && (p1 == p2 || (p1.Writing? && p2.Writing?))
    case _ => c1 == c2
  }

  lemma ContinueAlike(c1: Call, c2: Call, b1: Body, b2: Body, secret1: string, secret2: string)
    requires c1.Active? && WellFormed(c1) && WellFormed(c2) && Alike(c1, c2)
    requires c1.phase.Reading? || c1.phase.Confirming? ==>
               DocumentFactsOf(DocumentOf(b1), TargetId(c1.task), secret1)
               == DocumentFactsOf(DocumentOf(b2), TargetId(c1.task), secret2)
    ensures Alike(Continue(c1.task, c1.phase, Received(b1), secret1),
                  Continue(c2.task, c2.phase, Received(b2), secret2))
  {
  }

  lemma ResumeAlike(c1: Call, c2: Call, a1: Attempt, a2: Attempt, secret1: string, secret2: string)
    requires c1.Active? && WellFormed(c1) && WellFormed(c2) && Alike(c1, c2)
    requires FactsOf(Exchange(RequestOf(c1), a1), TargetId(c1.task), secret1)
          == FactsOf(Exchange(RequestOf(c2), a2), TargetId(c1.task), secret2)
    ensures Alike(Resume(c1, a1, secret1), Resume(c2, a2, secret2))
  {
    var o1, o2 := Settle(a1, SinkOf(c1.phase), c1.attempt), Settle(a2, SinkOf(c2.phase), c2.attempt);
    assert o1.Some? <==> o2.Some?;
    if o1.Some? && o1.value.Received? {
      ContinueAlike(c1, c2, o1.value.body, o2.value.body, secret1, secret2);
    }
  }

  /**
   * If the exchanges two runs meet agree on the facts above, the runs return the same report, whatever
   * the other provider fields, header values, error bodies and the runtime secrets themselves are.
   */
  lemma {:induction false} NonInterference<S, T>(
      serve1: Provider<S>, s1: S, c1: Call, secret1: string, serve2: Provider<T>, s2: T, c2: Call, secret2: string)
    requires WellFormed(c1) && WellFormed(c2) && Alike(c1, c2)
    requires var l1, l2 := RunCall(serve1, s1, c1, secret1).log, RunCall(serve2, s2, c2, secret2).log;
             c1.Active? ==> forall k | 0 <= k < |l1| && k < |l2| ::
               FactsOf(l1[k], TargetId(c1.task), secret1) == FactsOf(l2[k], TargetId(c1.task), secret2)
    ensures var r1, r2 := RunCall(serve1, s1, c1, secret1), RunCall(serve2, s2, c2, secret2);
            r1.report == r2.report && |r1.log| == |r2.log|
    decreases Budget(c1)
  {
    if c1.Active? {
      RunStep(serve1, s1, c1, secret1);
      RunStep(serve2, s2, c2, secret2);
      var (n1, a1) := serve1(s1, RequestOf(c1));
      var (n2, a2) := serve2(s2, RequestOf(c2));
      var l1, l2 := RunCall(serve1, s1, c1, secret1).log, RunCall(serve2, s2, c2, secret2).log;
      assert FactsOf(l1[0], TargetId(c1.task), secret1) == FactsOf(l2[0], TargetId(c1.task), secret2);
      ResumeAlike(c1, c2, a1, a2, secret1, secret2);
      var m1, m2 := Resume(c1, a1, secret1), Resume(c2, a2, secret2);
      forall k | 0 <= k < |l1[1..]| && k < |l2[1..]|
        ensures FactsOf(l1[1..][k], TargetId(c1.task), secret1)
             == FactsOf(l2[1..][k], TargetId(c1.task), secret2)
      {
        assert l1[1..][k] == l1[k + 1] && l2[1..][k] == l2[k + 1];
      }
      NonInterference(serve1, n1, m1, secret1, serve2, n2, m2, secret2);
    }
  }

  /** The same for whole tasks: two runtime secrets of the same validity cannot be told apart either. */
  lemma TaskNonInterference<S, T>(
      task: Task, serve1: Provider<S>, s1: S, secret1: string, serve2: Provider<T>, s2: T, secret2: string)
    requires ValidSecret(secret1) <==> ValidSecret(secret2)
    requires var l1, l2 := RunTask(serve1, s1, task, secret1).log, RunTask(serve2, s2, task, secret2).log;
             forall k | 0 <= k < |l1| && k < |l2| ::
               FactsOf(l1[k], TargetId(task), secret1) == FactsOf(l2[k], TargetId(task), secret2)
    ensures RunTask(serve1, s1, task, secret1).report == RunTask(serve2, s2, task, secret2).report
  {
    hide RunCall, FactsOf, Resume;
    var c1, c2 := Start(task, secret1), Start(task, secret2);
    assert c1 == c2;
    assert c1.Active? ==> c1.task == task;
    NonInterference(serve1, s1, c1, secret1, serve2, s2, c2, secret2);
  }
}
