/** destroy_service_invoice: success only when the provider says the invoice is Cancelled. */
module Cancelling {
  import opened Options
  import opened Text
  import opened Json
  import opened Wire
  import opened Fates
  import Paths

  const CANCELLED := "Cancelled"

  datatype Report =
    | Destroyed
    | Pending(status: string, flowMessage: string)
    | RefRequired
    | CompanyRequired
    | FromProvider(error: Error)

  predicate AcceptsCancel(body: Body) {
    body.Value? && (body.json.Null?
                    || (body.json.Object? && StringFieldDecodes(body.json.fields, "status")
                        && StringFieldDecodes(body.json.fields, "flowMessage")))
  }

  function TextOf(body: Body, name: string): string {
    if body.Value? && body.json.Object? then StringField(body.json.fields, name) else ""
  }

  function CancelRequest(company: string, invoice: string): Request {
    Request(Put, Paths.PathOf(Paths.CancelInvoice(company, invoice)), None)
  }

  function Conclude(outcome: Outcome): Report {
    match outcome
    case Failed(error) => FromProvider(error)
    case Received(body) =>
      if TextOf(body, "status") == CANCELLED then Destroyed
      else Pending(TextOf(body, "status"), TextOf(body, "flowMessage"))
  }

  // What a report says, read off the replies.

  predicate IsAccepted(body: Body) {
    body.Empty?
    || (body.Value? && (body.json.Null?
                        || (body.json.Object?
                            && forall name | name in body.json.fields && name in ["status", "flowMessage"] ::
                                 body.json.fields[name].String? || body.json.fields[name].Null?)))
  }

  /** Destroyed exactly on a decoded 2xx reply whose status is Cancelled; any other one is pending with its texts. */
  predicate ReportSays(report: Report, last: Attempt, isFinalAttempt: bool) {
    if last.reply.Response? && 200 <= last.reply.code < 300 && IsAccepted(last.reply.body) then
      var status := TextUnder(last.reply.body, "status");
      report == if status == "Cancelled" then Destroyed else Pending(status, TextUnder(last.reply.body, "flowMessage"))
    else
      report == FromProvider(
        if IsTransient(last.reply) && !isFinalAttempt && last.interrupt.Some? then ContextDone(last.interrupt.value)
        else
          match last.reply
          case NoResponse(cause) => Network(cause)
          case Response(code, _, _, body) =>
            if 200 <= code < 300 then Decode
            else Api(EffectiveStatus(code, body), TextUnder(body, "name"), body))
  }

  lemma ConcludeSays(last: Attempt, isFinalAttempt: bool)
    ensures ReportSays(Conclude(LastResult(last, AcceptsCancel, isFinalAttempt)), last, isFinalAttempt)
  {
    hide BodyStatus;
  }

  lemma CancelSays<S>(serve: Provider<S>, s: S, company: string, invoice: string)
    ensures var req := CancelRequest(company, invoice);
            var d := Perform(serve, s, req, AcceptsCancel);
            && req == Request(Put, "/v2/companies" + "/" + Paths.Escape(company) + "/" + "serviceinvoices" + "/"
                                   + Paths.Escape(invoice) + "/" + "cancel", None)
            && d.log != [] && (forall k | 0 <= k < |d.log| :: d.log[k].request == req)
            && ReportSays(Conclude(d.outcome), d.log[|d.log| - 1].attempt, |d.log| == 3)
  {
    Paths.PathTexts(company, invoice);
    var req := CancelRequest(company, invoice);
    RetryMeetsSpec(serve, s, req, AcceptsCancel);
    var d := Perform(serve, s, req, AcceptsCancel);
    ConcludeSays(d.log[|d.log| - 1].attempt, |d.log| == 3);
    hide ReportSays, Conclude, LastResult, DoFrom, Paths.PathOf, Paths.Escape;
  }

  /** DestroyWithDesired of a service invoice, with CancelNFSe inside it. */
  method DestroyServiceInvoice<S>(cli: Client<S>, ref: string, desiredCompany: string) returns (report: Report)
    modifies cli
    ensures var company := FirstNonEmpty(desiredCompany, cli.defaultCompany);
            var d := Perform(cli.serve, old(cli.state), CancelRequest(company, ref), AcceptsCancel);
            if ref == "" then report == RefRequired && cli.state == old(cli.state) && cli.log == old(cli.log)
            else if company == "" then
              report == CompanyRequired && cli.state == old(cli.state) && cli.log == old(cli.log)
            else cli.state == d.state && cli.log == old(cli.log) + d.log && report == Conclude(d.outcome)
    ensures ref != "" && (desiredCompany != "" || cli.defaultCompany != "") ==>
              var n := |cli.log| - |old(cli.log)|;
              var company := if desiredCompany != "" then desiredCompany else cli.defaultCompany;
              && 1 <= n <= 3 && ReportSays(report, cli.log[|cli.log| - 1].attempt, n == 3)
              && forall k | |old(cli.log)| <= k < |cli.log| :: cli.log[k].request ==
                   Request(Put, "/v2/companies" + "/" + Paths.Escape(company) + "/" + "serviceinvoices" + "/"
                                + Paths.Escape(ref) + "/" + "cancel", None)
  {
    ghost var payer := FirstNonEmpty(desiredCompany, cli.defaultCompany);
    CancelSays(cli.serve, cli.state, payer, ref);
    RetryMeetsSpec(cli.serve, cli.state, CancelRequest(payer, ref), AcceptsCancel);
    hide ReportSays, CancelRequest, DoFrom, Paths.Escape;
    if ref == "" {
      return RefRequired;
    }
    var company := desiredCompany;
    if company == "" {
      company := cli.defaultCompany;
    }
    if company == "" {
      return CompanyRequired;
    }
    var outcome, _, _ := cli.Do(CancelRequest(company, ref), AcceptsCancel);
    match outcome
    case Failed(error) => return FromProvider(error);
    case Received(body) =>
      var status, flowMessage := TextOf(body, "status"), TextOf(body, "flowMessage");
      var cancelled := status == CANCELLED;
      if !cancelled {
        return Pending(status, flowMessage);
      }
      return Destroyed;
  }

  datatype Key = Key(company: string, invoice: string)

  type Invoices = map<Key, string>

  /** next is the status the provider moves the invoice to, unless it is already Cancelled. */
  datatype CancelFate =
    | Answered(next: string, extra: Fields, kept: Kept)
    | Cut(applied: bool, next: string, reply: FailedReply, interrupt: Option<Cause>)

  datatype CancelSim = CancelSim(invoices: Invoices, fates: seq<CancelFate>)

  function AddressedInvoice(invoices: Invoices, req: Request): (key: Option<Key>)
    ensures key.Some? ==> key.value in invoices
  {
    match Paths.Route(req.path)
    case Some(CancelInvoice(c, i)) => if req.verb == Put && Key(c, i) in invoices then Some(Key(c, i)) else None
    case _ => None
  }

  function Moved(invoices: Invoices, key: Key, next: string): Invoices
    requires key in invoices
  {
    if invoices[key] == CANCELLED then invoices else invoices[key := next]
  }

  function ServeCancel(s: CancelSim, req: Request): (CancelSim, Attempt) {
    if s.fates == [] then (s, Attempt(NoResponse(OtherCause), None))
    else
      var later := s.fates[1..];
      match AddressedInvoice(s.invoices, req)
      case None => (CancelSim(s.invoices, later), Attempt(Status(404), None))
      case Some(key) =>
        var moved := Moved(s.invoices, key, s.fates[0].next);
        match s.fates[0]
        case Cut(applied, _, reply, interrupt) =>
          (CancelSim(if applied then moved else s.invoices, later), Attempt(reply, interrupt))
        case Answered(_, extra, kept) =>
          var body := ReadBody(Value(Object(extra["status" := String(moved[key])])), kept);
          (CancelSim(moved, later), Attempt(Response(200, "", None, body), None))
  }

  function CancelProvider(): Provider<CancelSim> {
    (s: CancelSim, req: Request) => ServeCancel(s, req)
  }

  /** No invoice leaves the Cancelled state, and none appears or disappears. */
  predicate Keeps(invoices: Invoices, later: Invoices) {
    invoices.Keys == later.Keys && forall k | k in invoices && invoices[k] == CANCELLED :: later[k] == CANCELLED
  }

  lemma CancelAddresses(invoices: Invoices, key: Key)
    ensures AddressedInvoice(invoices, CancelRequest(key.company, key.invoice))
         == if key in invoices then Some(key) else None
  {
    Paths.PathRoundTrip(Paths.CancelInvoice(key.company, key.invoice));
  }

  lemma {:induction false} AnyRequestKeeps(s: CancelSim, req: Request, accepts: Sink, attempt: nat)
    requires attempt <= MAX_ATTEMPTS
    ensures Keeps(s.invoices, DoFrom(CancelProvider(), s, req, accepts, attempt).state.invoices)
    decreases MAX_ATTEMPTS - attempt
  {
    hide AddressedInvoice, DoOnce;
    var (s1, a) := ServeCancel(s, req);
    assert Keeps(s.invoices, s1.invoices);
    if Settle(a, accepts, attempt).None? {
      AnyRequestKeeps(s1, req, accepts, attempt + 1);
    }
  }

  lemma {:induction false} SuccessIsCancelled(s: CancelSim, key: Key, attempt: nat)
    requires attempt <= MAX_ATTEMPTS
    ensures var d := DoFrom(CancelProvider(), s, CancelRequest(key.company, key.invoice), AcceptsCancel, attempt);
            Conclude(d.outcome).Destroyed? ==> key in d.state.invoices && d.state.invoices[key] == CANCELLED
    decreases MAX_ATTEMPTS - attempt
  {
    hide AddressedInvoice, CancelRequest, AcceptsCancel;
    CancelAddresses(s.invoices, key);
    var (s1, a) := ServeCancel(s, CancelRequest(key.company, key.invoice));
    if Settle(a, AcceptsCancel, attempt).None? {
      SuccessIsCancelled(s1, key, attempt + 1);
    }
  }

  lemma StaysCancelled(s: CancelSim, req: Request, accepts: Sink, key: Key)
    requires key in s.invoices && s.invoices[key] == CANCELLED
    ensures var after := Perform(CancelProvider(), s, req, accepts).state.invoices;
            key in after && after[key] == CANCELLED
  {
    hide DoFrom, CancelProvider;
    AnyRequestKeeps(s, req, accepts, 1);
    var after := DoFrom(CancelProvider(), s, req, accepts, 1).state.invoices;
    assert key in s.invoices.Keys;
    assert key in after.Keys;
  }

  lemma DestroyedIsCancelled(s: CancelSim, key: Key)
    ensures var d := Perform(CancelProvider(), s, CancelRequest(key.company, key.invoice), AcceptsCancel);
            Conclude(d.outcome).Destroyed? ==> key in d.state.invoices && d.state.invoices[key] == CANCELLED
  {
    hide DoFrom, CancelProvider, Conclude, CancelRequest;
    SuccessIsCancelled(s, key, 1);
  }

  datatype LaterCall = LaterCall(request: Request, accepts: Sink)

  /** Any further calls, of any kind, one after another. */
  function PerformAll(s: CancelSim, calls: seq<LaterCall>): CancelSim
    decreases |calls|
  {
    if calls == [] then s
    else PerformAll(Perform(CancelProvider(), s, calls[0].request, calls[0].accepts).state, calls[1..])
  }

  lemma {:induction false} StaysCancelledForGood(s: CancelSim, calls: seq<LaterCall>, key: Key)
    requires key in s.invoices && s.invoices[key] == CANCELLED
    ensures var after := PerformAll(s, calls).invoices; key in after && after[key] == CANCELLED
    decreases |calls|
  {
    hide Perform, CancelProvider;
    if calls != [] {
      StaysCancelled(s, calls[0].request, calls[0].accepts, key);
      StaysCancelledForGood(
        Perform(CancelProvider(), s, calls[0].request, calls[0].accepts).state, calls[1..], key);
    }
  }

  /**
   * With Cancelled absorbing, an invoice reported destroyed is cancelled, then and after every sequence of later
   * calls, whatever the fates of all their attempts.
   */
  lemma NoLiveInvoiceReportedDestroyed(s: CancelSim, key: Key, later: seq<LaterCall>)
    ensures var d := Perform(CancelProvider(), s, CancelRequest(key.company, key.invoice), AcceptsCancel);
            var after := PerformAll(d.state, later);
            Conclude(d.outcome).Destroyed? ==>
              && key in d.state.invoices && d.state.invoices[key] == CANCELLED
              && key in after.invoices && after.invoices[key] == CANCELLED
  {
    hide Perform, CancelProvider, Conclude, CancelRequest;
    DestroyedIsCancelled(s, key);
    var d := Perform(CancelProvider(), s, CancelRequest(key.company, key.invoice), AcceptsCancel);
    if Conclude(d.outcome).Destroyed? {
      StaysCancelledForGood(d.state, later, key);
    }
  }
}
