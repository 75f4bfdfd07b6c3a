/** The webhook capabilities as the source writes them: sequences of client calls and decisions. */
module WebhookClient {
  import opened Options
  import opened Json
  import opened Wire
  import opened Webhooks
  import opened Calls

  datatype Fetch = Fetched(document: Fields) | NotFetched(why: Refusal)

  function FetchOf(outcome: Outcome, id: string): Fetch {
    match outcome
    case Failed(error) => NotFetched(Sanitize(error))
    case Received(body) =>
      if DocumentId(DocumentOf(body)) == Some(id) then Fetched(DocumentOf(body)) else NotFetched(IdMismatch)
  }

  method GetWebhookByExactId<S>(cli: Client<S>, id: string) returns (r: Fetch)
    modifies cli
    ensures var d := Perform(cli.serve, old(cli.state), Request(Get, WebhookPath(id), None), AcceptsDocument);
            cli.state == d.state && cli.log == old(cli.log) + d.log && r == FetchOf(d.outcome, id)
  {
    var outcome, _, _ := cli.Do(Request(Get, WebhookPath(id), None), AcceptsDocument);
    match outcome
    case Failed(error) => return NotFetched(Sanitize(error));
    case Received(body) =>
      if DocumentId(DocumentOf(body)) != Some(id) {
        return NotFetched(IdMismatch);
      }
      return Fetched(DocumentOf(body));
  }

  /** The confirming GET and the checks after it. */
  method Confirm<S>(cli: Client<S>, input: EnsureInput) returns (report: Report)
    modifies cli
    ensures var r := RunCall(cli.serve, old(cli.state), Active(Ensure(input), Confirming, 1), cli.webhookSecret);
            cli.state == r.state && cli.log == old(cli.log) + r.log && report == r.report
  {
    RunPhase(cli.serve, cli.state, Active(Ensure(input), Confirming, 1), cli.webhookSecret);
    var confirmed := GetWebhookByExactId(cli, input.id);
    if confirmed.NotFetched? {
      return Refused(confirmed.why);
    }
    var insecure := InsecureSsl(confirmed.document);
    if insecure.None? || insecure.value {
      return Refused(TlsNotConfirmed);
    }
    if input.setHmac {
      var headers := HeadersOf(confirmed.document);
      if headers.BadHeaders? {
        return Refused(ConfirmationInvalid);
      }
      if HasAuthorization(headers) {
        return Refused(MigrationNotConfirmed);
      }
    }
    return Ensured(input.id, false, true, true);
  }

  /** The exact-id PUT of the whole object, then the confirmation. */
  method Update<S>(cli: Client<S>, input: EnsureInput, desired: Fields) returns (report: Report)
    modifies cli
    ensures var r := RunCall(cli.serve, old(cli.state), Active(Ensure(input), Writing(desired), 1), cli.webhookSecret);
            cli.state == r.state && cli.log == old(cli.log) + r.log && report == r.report
  {
    RunPhase(cli.serve, cli.state, Active(Ensure(input), Writing(desired), 1), cli.webhookSecret);
    var written, _, _ := cli.Do(Request(Put, WebhookPath(input.id), Some(Envelope(desired))), Discard());
    if written.Failed? {
      return Refused(Sanitize(written.error));
    }
    report := Confirm(cli, input);
  }

  /** EnsureWebhookSubscription: GET, decide, PUT, confirming GET. */
  method EnsureWebhookSubscription<S>(cli: Client<S>, input: EnsureInput) returns (report: Report)
    modifies cli
    ensures var r := RunTask(cli.serve, old(cli.state), Ensure(input), cli.webhookSecret);
            cli.state == r.state && cli.log == old(cli.log) + r.log && report == r.report
  {
    hide ValidateEnsure, WebhookPath, DesiredFields, DocumentId, DocumentOf, InsecureSsl, SecretMatches, IsFrameOf,
         DoFrom, HeadersOf, AfterConfirm, Sanitize;
    var refusal := ValidateEnsure(input, cli.webhookSecret);
    if refusal.Some? {
      return Refused(refusal.value);
    }
    RunPhase(cli.serve, cli.state, Active(Ensure(input), Reading, 1), cli.webhookSecret);
    var current := GetWebhookByExactId(cli, input.id);
    if current.NotFetched? {
      return Refused(current.why);
    }
    var insecure := InsecureSsl(current.document);
    if insecure.None? {
      return Refused(InsecureSslOmitted);
    }
    if !insecure.value && !input.setHmac {
      return Ensured(input.id, false, true, false);
    }
    if insecure.value && !input.setHmac && !SecretMatches(current.document, cli.webhookSecret) {
      return Refused(MigrationRequired);
    }
    var desired := BuildDesiredFields(current.document, input.setHmac, cli.webhookSecret);
    if desired.None? {
      return Refused(HeadersNotPreserved);
    }
    report := Update(cli, input, desired.value);
  }

  /** ObserveWebhookSubscriptions, on a decoded exact id. */
  method ObserveWebhookSubscription<S>(cli: Client<S>, id: string) returns (report: Report)
    modifies cli
    ensures var r := RunTask(cli.serve, old(cli.state), Observe(id), cli.webhookSecret);
            cli.state == r.state && cli.log == old(cli.log) + r.log && report == r.report
  {
    if !ValidWebhookId(id) {
      return Refused(InvalidId);
    }
    RunPhase(cli.serve, cli.state, Active(Observe(id), Reading, 1), cli.webhookSecret);
    var current := GetWebhookByExactId(cli, id);
    if current.NotFetched? {
      return Refused(current.why);
    }
    var insecure := InsecureSsl(current.document);
    if insecure.None? {
      return Refused(InsecureSslOmitted);
    }
    return Observed(id, insecure.value);
  }

  /** DestroyWithDesired and DestroyWebhookSubscription: every guard, then DELETE; 404 counts as success. */
  method DestroyWithDesired<S>(cli: Client<S>, ref: string, desired: EnsureInput) returns (report: Report)
    modifies cli
    ensures var r := RunTask(cli.serve, old(cli.state), Destroy(ref, desired), cli.webhookSecret);
            cli.state == r.state && cli.log == old(cli.log) + r.log && report == r.report
  {
    if desired.ref != "" && desired.ref != ref {
      return Refused(RefMismatch);
    }
    if desired.id != "" && desired.id != ref {
      return Refused(TargetMismatch);
    }
    if !ValidWebhookId(ref) {
      return Refused(InvalidId);
    }
    if desired.confirmId != ref {
      return Refused(ConfirmMismatch);
    }
    RunPhase(cli.serve, cli.state, Active(Destroy(ref, desired), Deleting, 1), cli.webhookSecret);
    var outcome, _, _ := cli.Do(Request(Wire.Delete, WebhookPath(ref), None), Discard());
    match outcome
    case Received(_) => return Deleted(false);
    case Failed(error) =>
      if error.Api? && error.status == 404 {
        return Deleted(true);
      }
      return Refused(Sanitize(error));
  }
}
