/** Issuing one invoice: POST with retries, a 409 adopted as the existing invoice. */
module Issuing {
  import opened Options
  import opened Json
  import opened Wire
  import Paths

  /** details holds the encoded optional and borrower fields, which carry no claim. */
  datatype Item = Item(company: string, municipio: string, externalId: string, details: Fields)

  /** Template fields by municipality, and the configured default company. */
  datatype Setup = Setup(templates: map<string, Fields>, defaultCompany: string)

  datatype Invoice = Invoice(id: string, status: string, duplicate: bool)

  datatype IssueError = TemplateNotFound(municipio: string) | CompanyRequired | FromProvider(error: Error)

  datatype Report = Issued(invoice: Invoice) | NotIssued(why: IssueError)

  datatype Call = Active(item: Item, company: string, body: Json, attempt: nat) | Done(report: Report)

  const TEXT_FIELDS := ["id", "status", "flow_status", "flow_message", "external_id", "check_code", "created_on"]
  const AMOUNT_FIELDS := ["iss_tax_amount", "amount_net"]

  /** Decoding the reply struct raises no error. */
  predicate InvoiceDecodes(fields: Fields) {
    && (forall name | name in TEXT_FIELDS :: StringFieldDecodes(fields, name))
    && (forall name | name in AMOUNT_FIELDS && name in fields :: fields[name].Number? || fields[name].Null?)
    && ("number" in fields ==> AsInt(fields["number"]).Some? || fields["number"].Null?)
    && ("duplicate" in fields ==> AsBool(fields["duplicate"]).Some?)
  }

  predicate AcceptsInvoice(body: Body) {
    body.Value? && (body.json.Null? || (body.json.Object? && InvoiceDecodes(body.json.fields)))
  }

  /** The out struct after decoding, which keeps every field that decoded even when another one failed. */
  function InvoiceOf(body: Body): Invoice {
    if body.Value? && body.json.Object? then
      var fields := body.json.fields;
      Invoice(StringField(fields, "id"), StringField(fields, "status"),
              "duplicate" in fields && fields["duplicate"] == Bool(true))
    else Invoice("", "", false)
  }

  function Conclude(outcome: Outcome): Report {
    match outcome
    case Received(body) => Issued(InvoiceOf(body))
    case Failed(error) =>
      if error.Api? && error.status == 409 then Issued(InvoiceOf(error.raw).(duplicate := true))
      else NotIssued(FromProvider(error))
  }

  function RequestBody(template: Fields, item: Item): Json {
    Object((template + item.details)["externalId" := String(item.externalId)])
  }

  predicate WellFormed(c: Call) {
    c.Active? ==>
      && 1 <= c.attempt <= MAX_ATTEMPTS
      && c.body.Object? && "externalId" in c.body.fields && c.body.fields["externalId"] == String(c.item.externalId)
  }

  function Begin(setup: Setup, item: Item): (c: Call)
    ensures WellFormed(c)
  {
    if item.municipio !in setup.templates then Done(NotIssued(TemplateNotFound(item.municipio)))
    else
      var company := if item.company != "" then item.company else setup.defaultCompany;
      if company == "" then Done(NotIssued(CompanyRequired))
      else Active(item, company, RequestBody(setup.templates[item.municipio], item), 1)
  }

  function RequestOf(c: Call): Request
    requires c.Active?
  {
    Request(Post, Paths.PathOf(Paths.Invoices(c.company)), Some(c.body))
  }

  /** One attempt; a finished call stays finished. */
  function Resume(c: Call, a: Attempt): (next: Call)
    ensures WellFormed(c) ==> WellFormed(next)
  {
    if c.Done? then c
    else
      match Settle(a, AcceptsInvoice, c.attempt)
      case None => c.(attempt := c.attempt + 1)
      case Some(outcome) => Done(Conclude(outcome))
  }

  /** What a call makes of the attempts it has met. */
  function Replay(c: Call, met: seq<Attempt>): (next: Call)
    ensures WellFormed(c) ==> WellFormed(next)
    decreases |met|
  {
    if met == [] then c else Resume(Replay(c, met[..|met| - 1]), met[|met| - 1])
  }

  function Attempts(log: seq<Exchange>): seq<Attempt> {
    seq(|log|, i requires 0 <= i < |log| => log[i].attempt)
  }

  lemma {:induction false} ReplayFront(c: Call, first: Attempt, met: seq<Attempt>)
    ensures Replay(c, [first] + met) == Replay(Resume(c, first), met)
    decreases |met|
  {
    var all := [first] + met;
    if met == [] {
      assert all[..|all| - 1] == [];
    } else {
      ReplayFront(c, first, met[..|met| - 1]);
      assert all[..|all| - 1] == [first] + met[..|met| - 1];
    }
  }

  /** The retry loop meets exactly the attempts that bring the call to its conclusion. */
  lemma {:induction false} ReplayIsDo<S>(serve: Provider<S>, s: S, c: Call)
    requires c.Active? && WellFormed(c)
    ensures var d := DoFrom(serve, s, RequestOf(c), AcceptsInvoice, c.attempt);
            Replay(c, Attempts(d.log)) == Done(Conclude(d.outcome))
    decreases MAX_ATTEMPTS - c.attempt
  {
    hide AcceptsInvoice, Conclude, DoOnce, Paths.PathOf;
    var (s1, a) := serve(s, RequestOf(c));
    var d := DoFrom(serve, s, RequestOf(c), AcceptsInvoice, c.attempt);
    if Settle(a, AcceptsInvoice, c.attempt).None? {
      var again := Resume(c, a);
      ReplayIsDo(serve, s1, again);
      var rest := DoFrom(serve, s1, RequestOf(again), AcceptsInvoice, again.attempt);
      assert Attempts(d.log) == [a] + Attempts(rest.log);
      ReplayFront(c, a, Attempts(rest.log));
    } else {
      assert Attempts(d.log) == [a] + [];
      ReplayFront(c, a, []);
    }
  }

  // What a report says, read off the replies.

  predicate FieldFits(name: string, raw: Json) {
    if name in ["id", "status", "flow_status", "flow_message", "external_id", "check_code", "created_on"] then
      raw.String? || raw.Null?
    else if name in ["iss_tax_amount", "amount_net"] then raw.Number? || raw.Null?
    else if name == "number" then AsInt(raw).Some? || raw.Null?
    else if name == "duplicate" then raw.Bool? || raw.Null?
    else true
  }

  /** A reply body that decodes: null, or an object whose known fields have their types. */
  lemma AcceptsInvoiceIff(body: Body)
    ensures AcceptsInvoice(body)
       <==> body.Value? && (body.json.Null?
                            || (body.json.Object?
                                && forall name | name in body.json.fields :: FieldFits(name, body.json.fields[name])))
  {
    hide AsInt;
  }

  /** The invoice a body names: its id and status texts, and whether it says it is a duplicate. */
  predicate IsNamed(invoice: Invoice, body: Body, isDuplicate: bool) {
    && invoice.id == TextUnder(body, "id") && invoice.status == TextUnder(body, "status")
    && (invoice.duplicate <==>
          isDuplicate || (body.Value? && body.json.Object? && "duplicate" in body.json.fields
                          && body.json.fields["duplicate"] == Bool(true)))
  }

  /** The report of a call, from the last attempt it met. */
  ghost predicate ReportSays(report: Report, last: Attempt, isFinalAttempt: bool) {
    if IsTransient(last.reply) && !isFinalAttempt && last.interrupt.Some? then
      report == NotIssued(FromProvider(ContextDone(last.interrupt.value)))
    else
      match last.reply
      case NoResponse(cause) => report == NotIssued(FromProvider(Network(cause)))
      case Response(code, _, _, body) =>
        if 200 <= code < 300 then
          if body.Empty? || AcceptsInvoice(body) then report.Issued? && IsNamed(report.invoice, body, false)
          else report == NotIssued(FromProvider(Decode))
        else if EffectiveStatus(code, body) == 409 then report.Issued? && IsNamed(report.invoice, body, true)
        else report == NotIssued(FromProvider(Api(EffectiveStatus(code, body), TextUnder(body, "name"), body)))
  }

  lemma ConcludeSays(last: Attempt, isFinalAttempt: bool)
    ensures ReportSays(Conclude(LastResult(last, AcceptsInvoice, isFinalAttempt)), last, isFinalAttempt)
  {
    hide AcceptsInvoice, BodyStatus;
  }

  /** What is decided before the first attempt: template, then company; the item's company, else the default. */
  lemma BeginIs(setup: Setup, item: Item)
    ensures item.municipio !in setup.templates ==>
              Begin(setup, item) == Done(NotIssued(TemplateNotFound(item.municipio)))
    ensures item.municipio in setup.templates && item.company == "" && setup.defaultCompany == "" ==>
              Begin(setup, item) == Done(NotIssued(CompanyRequired))
    ensures item.municipio in setup.templates && (item.company != "" || setup.defaultCompany != "") ==>
              var c := Begin(setup, item);
              && c.Active? && c.attempt == 1
              && IsOwnRequest(RequestOf(c), if item.company != "" then item.company else setup.defaultCompany, item,
                              setup.templates[item.municipio])
  {
    hide Paths.Escape;
    Paths.PathTexts(item.company, "");
    Paths.PathTexts(setup.defaultCompany, "");
    hide Paths.PathOf;
  }

  /** The POST of one item: the template's fields under the item's own, and its external id. */
  ghost predicate IsOwnRequest(req: Request, company: string, item: Item, template: Fields) {
    && req.verb == Post
    && req.path == "/v2/companies" + "/" + Paths.Escape(company) + "/" + "serviceinvoices"
    && req.body.Some? && req.body.value.Object?
    && var fields := req.body.value.fields;
       && fields.Keys == template.Keys + item.details.Keys + {"externalId"}
       && fields["externalId"] == String(item.externalId)
       && (forall name | name in item.details && name != "externalId" :: fields[name] == item.details[name])
       && (forall name | name in template && name !in item.details && name != "externalId" ::
             fields[name] == template[name])
  }

  lemma {:induction false} ReplayCounts(c: Call, met: seq<Attempt>)
    requires c.Active?
    ensures Replay(c, met).Active? ==> Replay(c, met).attempt == c.attempt + |met|
    decreases |met|
  {
    hide DoOnce, Conclude;
    if met != [] {
      ReplayCounts(c, met[..|met| - 1]);
    }
  }

  /** The attempts a call met end with the one that concluded it. */
  predicate EndsThere(c: Call, met: seq<Attempt>) {
    met != [] ==> c.Active? && Replay(c, met[..|met| - 1]).Active?
  }

  lemma ConcludedSays(c: Call, met: seq<Attempt>)
    requires (c.Active? ==> c.attempt == 1) && WellFormed(c) && met != [] && EndsThere(c, met) && Replay(c, met).Done?
    ensures |met| <= 3 && ReportSays(Replay(c, met).report, met[|met| - 1], |met| == 3)
  {
    var now, last := Replay(c, met[..|met| - 1]), met[|met| - 1];
    ReplayCounts(c, met[..|met| - 1]);
    DoOnceMeans(last.reply, AcceptsInvoice);
    ConcludeSays(last, |met| == 3);
    hide DoOnce, ReportSays, Conclude, Meaning, Pause, IsTransient;
  }

  lemma IssueSays<S>(serve: Provider<S>, s: S, setup: Setup, item: Item)
    ensures var c := Begin(setup, item);
            && (c.Done? <==> item.municipio !in setup.templates || (item.company == "" && setup.defaultCompany == ""))
            && (item.municipio !in setup.templates ==> c.report == NotIssued(TemplateNotFound(item.municipio)))
            && (item.municipio in setup.templates && c.Done? ==> c.report == NotIssued(CompanyRequired))
            && (c.Active? ==>
                  var d := Perform(serve, s, RequestOf(c), AcceptsInvoice);
                  && 1 <= |d.log| <= 3 && Attempts(d.log)[|d.log| - 1] == d.log[|d.log| - 1].attempt
                  && ReportSays(Conclude(d.outcome), d.log[|d.log| - 1].attempt, |d.log| == 3)
                  && (forall i | 0 <= i < |d.log| :: d.log[i].request == RequestOf(c))
                  && IsOwnRequest(RequestOf(c), if item.company != "" then item.company else setup.defaultCompany, item,
                                  setup.templates[item.municipio]))
  {
    BeginIs(setup, item);
    var c := Begin(setup, item);
    if c.Active? {
      RetryMeetsSpec(serve, s, RequestOf(c), AcceptsInvoice);
      var d := Perform(serve, s, RequestOf(c), AcceptsInvoice);
      ConcludeSays(d.log[|d.log| - 1].attempt, |d.log| == 3);
    }
    hide ReportSays, IsOwnRequest, Conclude, LastResult, RequestBody, DoFrom;
  }

  /** IssueNFSe: it returns what its attempts conclude, and posts nothing but its own request. */
  method IssueNfse<S>(cli: Client<S>, templates: map<string, Fields>, item: Item)
    returns (report: Report, ghost met: seq<Attempt>)
    modifies cli
    ensures var c := Begin(Setup(templates, cli.defaultCompany), item);
            && Done(report) == Replay(c, met)
            && old(cli.log) <= cli.log
            && met == Attempts(cli.log[|old(cli.log)|..])
            && |met| <= MAX_ATTEMPTS
            && (forall i | |old(cli.log)| <= i < |cli.log| :: c.Active? && cli.log[i].request == RequestOf(c))
            && (c.Active? ==> var d := Perform(cli.serve, old(cli.state), RequestOf(c), AcceptsInvoice);
                              cli.state == d.state && report == Conclude(d.outcome))
            && (c.Done? ==> cli.state == old(cli.state) && met == [])
    ensures met == [] <==>
              item.municipio !in templates || (item.company == "" && cli.defaultCompany == "")
    ensures item.municipio !in templates ==> report == NotIssued(TemplateNotFound(item.municipio))
    ensures item.municipio in templates && met == [] ==> report == NotIssued(CompanyRequired)
    ensures met != [] ==> ReportSays(report, met[|met| - 1], |met| == 3)
    ensures forall i | |old(cli.log)| <= i < |cli.log| ::
              item.municipio in templates
              && IsOwnRequest(cli.log[i].request, if item.company != "" then item.company else cli.defaultCompany, item,
                              templates[item.municipio])
  {
    met := [];
    IssueSays(cli.serve, cli.state, Setup(templates, cli.defaultCompany), item);
    hide ReportSays, IsOwnRequest, Replay, DoFrom, InvoiceOf, AcceptsInvoice, Paths.PathOf;
    if item.municipio !in templates {
      return NotIssued(TemplateNotFound(item.municipio)), [];
    }
    var company := item.company;
    if company == "" {
      company := cli.defaultCompany;
    }
    if company == "" {
      return NotIssued(CompanyRequired), [];
    }
    var body := item.details;
    body := templates[item.municipio] + body;
    body := body["externalId" := String(item.externalId)];
    ghost var c := Begin(Setup(templates, cli.defaultCompany), item);
    ReplayIsDo(cli.serve, cli.state, c);
    ghost var before := cli.log;
    var req := Request(Post, Paths.PathOf(Paths.Invoices(company)), Some(Object(body)));
    ghost var d := Perform(cli.serve, cli.state, req, AcceptsInvoice);
    assert req == RequestOf(c);
    var outcome, _, _ := cli.Do(req, AcceptsInvoice);
    assert cli.log[|before|..] == d.log;
    met := Attempts(d.log);
    hide Begin, RequestOf, Attempts, Perform;
    match outcome
    case Received(reply) => report := Issued(InvoiceOf(reply));
    case Failed(error) =>
      if error.Api? && error.status == 409 {
        report := Issued(InvoiceOf(error.raw).(duplicate := true));
      } else {
        report := NotIssued(FromProvider(error));
      }
  }
}

/** When a reply that names no invoice, or not the provider's, is reported as an issued invoice. */
module FalseSuccesses {
  import opened Options
  import opened Wire
  import opened Fates
  import opened Issuing

  /** One attempt: a failing reply ends a call as issued exactly on an effective status 409 that is not retried. */
  lemma FailedReplyIssuesIff(c: Call, a: Attempt)
    requires c.Active? && IsFailedReply(a.reply)
    ensures var next := Resume(c, a);
            next.Done? && next.report.Issued? <==>
              && a.reply.Response? && EffectiveStatus(a.reply.code, a.reply.body) == 409
              && (c.attempt >= MAX_ATTEMPTS || !(a.reply.code == 429 || a.reply.code >= 500))
  {
    hide EffectiveStatus, InvoiceOf, AcceptsInvoice, ParseRetryAfter;
  }

  /**
   * Against a provider that answers every attempt with the same error, a call reports an issued invoice exactly
   * when the effective status of that error is 409, whatever the HTTP code and whether or not an invoice exists.
   */
  lemma ErrorReadsAsIssuedIff(c: Call, code: int, retryAfter: string, body: Body)
    requires c.Active? && WellFormed(c) && !(200 <= code < 300)
    ensures var serve := Always(Response(code, retryAfter, None, body));
            var report := Conclude(DoFrom(serve, (), RequestOf(c), AcceptsInvoice, c.attempt).outcome);
            && (report.Issued? <==> EffectiveStatus(code, body) == 409)
            && (report.Issued? ==> report == Issued(InvoiceOf(body).(duplicate := true)))
  {
    hide EffectiveStatus, InvoiceOf, AcceptsInvoice, RequestOf, DoFrom, Always;
    AlwaysFails(code, retryAfter, body, RequestOf(c), AcceptsInvoice, c.attempt);
  }

  /** Such a reply: a 503 whose body says 409 ends in an issued invoice without an id. */
  lemma ServerErrorReadsAsIssued(c: Call)
    requires c.Active? && WellFormed(c)
    ensures var serve := Always(Response(503, "", None, StatusBody("409")));
            Conclude(DoFrom(serve, (), RequestOf(c), AcceptsInvoice, c.attempt).outcome)
            == Issued(Invoice("", "", true))
  {
    hide DoFrom, AcceptsInvoice, RequestOf, WellFormed, BodyStatus, Conclude, Always;
    StatusBodiesRead();
    ErrorReadsAsIssuedIff(c, 503, "", StatusBody("409"));
  }

  /**
   * One attempt whose reply body is not read whole: it ends a call as issued exactly when nothing was read of a
   * 2xx reply, or when the HTTP code is 409; and then the invoice has no id.
   */
  lemma CutReplyIssuesIff(c: Call, code: int, sent: Body, kept: Kept)
    requires c.Active? && !kept.All? && !sent.Empty?
    ensures var next := Resume(c, Attempt(CutReply(Response(code, "", None, sent), kept), None));
            && (next.Done? && next.report.Issued? <==>
                  || (200 <= code < 300 && kept.Nothing?)
                  || code == 409)
            && (next.Done? && next.report.Issued? ==> next.report == Issued(Invoice("", "", code == 409)))
  {
    hide ParseRetryAfter;
  }

  /** Such a reply: a 201 of which nothing was read, whatever it said. A whole call against it ends the same way. */
  lemma UnreadReplyReadsAsIssued(c: Call, sent: Body)
    requires c.Active? && WellFormed(c)
    ensures var reply := CutReply(Response(201, "", None, sent), Nothing);
            && Resume(c, Attempt(reply, None)) == Done(Issued(Invoice("", "", false)))
            && Conclude(DoFrom(Always(reply), (), RequestOf(c), AcceptsInvoice, c.attempt).outcome)
               == Issued(Invoice("", "", false))
  {
    hide RequestOf, AcceptsInvoice;
  }
}

/** A provider that remembers one invoice per company and external id. */
module InvoiceRegistry {
  import opened Options
  import opened Json
  import opened Wire
  import opened Fates
  import opened Issuing

  datatype Key = Key(company: string, externalId: string)

  datatype Creation = Creation(key: Key, id: string)

  /** Every invoice ever created, in order. */
  type Registry = seq<Creation>

  /**
   * id is the identifier the provider would give a new invoice, extra whatever else its replies carry, and kept how
   * much of a reply is read.
   */
  datatype PostFate =
    | Answered(id: string, extra: Fields, kept: Kept)
    | Cut(applied: bool, id: string, reply: FailedReply, interrupt: Option<Cause>)

  /** A failing reply that the 409 path takes for the provider's own answer. */
  predicate Misleads(fate: PostFate) {
    fate.Cut? && fate.reply.Response? && EffectiveStatus(fate.reply.code, fate.reply.body) == 409
  }

  /** An answer of the provider of which so little is read that its success names no invoice. */
  predicate Blanks(r: Registry, key: Key, fate: PostFate) {
    fate.Answered? && (fate.kept.Nothing? || (fate.kept.Part? && HasKey(r, key)))
  }

  /** Every answer is read whole, and no failing reply reads as a 409. */
  predicate IsPlain(fate: PostFate) {
    !Misleads(fate) && (fate.Answered? ==> fate.kept.All?)
  }

  predicate HasKey(r: Registry, key: Key) {
    exists i | 0 <= i < |r| :: r[i].key == key
  }

  function IdFor(r: Registry, key: Key): string
    requires HasKey(r, key)
  {
    if r[0].key == key then r[0].id
    else
      assert exists i | 0 <= i < |r[1..]| :: r[1..][i].key == key by {
        var i :| 0 <= i < |r| && r[i].key == key;
        assert r[1..][i - 1] == r[i];
      }
      IdFor(r[1..], key)
  }

  function PostedKey(req: Request): Option<Key> {
    match Paths.Route(req.path)
    case Some(Invoices(company)) =>
      if req.verb == Post && req.body.Some? && req.body.value.Object? && "externalId" in req.body.value.fields
         && req.body.value.fields["externalId"].String?
      then Some(Key(company, req.body.value.fields["externalId"].text))
      else None
    case _ => None
  }

  function Register(r: Registry, key: Key, id: string): Registry {
    if HasKey(r, key) then r else r + [Creation(key, id)]
  }

  function Serve(r: Registry, req: Request, fate: PostFate): (Registry, Attempt) {
    match PostedKey(req)
    case None => (r, Attempt(Status(404), None))
    case Some(key) =>
      var r' := Register(r, key, fate.id);
      match fate
      case Cut(applied, _, reply, interrupt) => (if applied then r' else r, Attempt(reply, interrupt))
      case Answered(_, extra, kept) =>
        var body := ReadBody(Value(Object(extra["id" := String(IdAfter(r, key, fate.id))])), kept);
        (r', Attempt(Response(if HasKey(r, key) then 409 else 201, "", None, body), None))
  }

  function IdAfter(r: Registry, key: Key, id: string): string {
    if HasKey(r, key) then IdFor(r, key) else id
  }

  predicate Names(r: Registry, key: Key, id: string) {
    HasKey(r, key) && IdFor(r, key) == id
  }

  ghost predicate AtMostOnePerKey(r: Registry) {
    forall i, j | 0 <= i < j < |r| :: r[i].key != r[j].key
  }

  /** An invoice registered once stays registered under its key and id. */
  ghost predicate Extends(r: Registry, r': Registry) {
    forall key | HasKey(r, key) :: HasKey(r', key) && IdFor(r', key) == IdFor(r, key)
  }

  lemma {:induction false} IdForPrefix(r: Registry, more: Registry, key: Key)
    requires HasKey(r, key)
    ensures HasKey(r + more, key) && IdFor(r + more, key) == IdFor(r, key)
  {
    var i :| 0 <= i < |r| && r[i].key == key;
    assert (r + more)[i].key == key;
    if r[0].key != key {
      assert (r + more)[1..] == r[1..] + more;
      assert r[1..][i - 1].key == key;
      IdForPrefix(r[1..], more, key);
    }
  }

  lemma {:induction false} IdForNew(r: Registry, key: Key, id: string)
    requires !HasKey(r, key)
    ensures HasKey(r + [Creation(key, id)], key) && IdFor(r + [Creation(key, id)], key) == id
  {
    var all := r + [Creation(key, id)];
    assert all[|r|].key == key;
    if r != [] {
      assert r[0].key != key;
      assert all[1..] == r[1..] + [Creation(key, id)];
      forall i | 0 <= i < |r[1..]| ensures r[1..][i].key != key {
        assert r[1..][i] == r[i + 1];
      }
      IdForNew(r[1..], key, id);
    }
  }

  /** Creations by anybody else, in order; the provider dedups them like any other. */
  function RegisterAll(r: Registry, others: seq<Creation>): Registry
    decreases |others|
  {
    if others == [] then r else RegisterAll(Register(r, others[0].key, others[0].id), others[1..])
  }

  lemma RegisterGrows(r: Registry, key: Key, id: string)
    requires AtMostOnePerKey(r)
    ensures AtMostOnePerKey(Register(r, key, id)) && Extends(r, Register(r, key, id))
  {
    var r' := Register(r, key, id);
    if r' != r {
      forall k | HasKey(r, k) ensures HasKey(r', k) && IdFor(r', k) == IdFor(r, k) {
        IdForPrefix(r, [Creation(key, id)], k);
      }
    }
  }

  lemma {:induction false} RegisterAllGrows(r: Registry, others: seq<Creation>)
    requires AtMostOnePerKey(r)
    ensures AtMostOnePerKey(RegisterAll(r, others)) && Extends(r, RegisterAll(r, others))
    decreases |others|
  {
    hide Register, AtMostOnePerKey, HasKey, IdFor;
    if others != [] {
      RegisterGrows(r, others[0].key, others[0].id);
      RegisterAllGrows(Register(r, others[0].key, others[0].id), others[1..]);
    }
  }

  /** An issuing call's own request is for its company and external id. */
  lemma RequestKey(c: Call)
    requires c.Active? && WellFormed(c)
    ensures PostedKey(RequestOf(c)) == Some(Key(c.company, c.item.externalId))
  {
    Paths.PathRoundTrip(Paths.Invoices(c.company));
  }

  lemma ServeGrows(r: Registry, req: Request, fate: PostFate)
    requires AtMostOnePerKey(r)
    ensures var r' := Serve(r, req, fate).0; AtMostOnePerKey(r') && Extends(r, r')
  {
    hide Register, AtMostOnePerKey, HasKey, IdFor;
    if PostedKey(req).Some? {
      RegisterGrows(r, PostedKey(req).value, fate.id);
    }
  }

  /**
   * Whatever happened to earlier attempts, an attempt that ends in success names the registered invoice, unless
   * its reply is a failure whose effective status is 409, or an answer that was cut so that the success names none.
   */
  lemma SuccessNamesInvoice(r: Registry, c: Call, fate: PostFate)
    requires c.Active? && WellFormed(c)
    ensures var (r', a) := Serve(r, RequestOf(c), fate);
            var next := Resume(c, a);
            var key := Key(c.company, c.item.externalId);
            && (next.Done? && next.report.Issued? && !Misleads(fate) && !Blanks(r, key, fate) ==>
                  Names(r', key, next.report.invoice.id))
            && (Blanks(r, key, fate) ==>
                  HasKey(r', key) && next.Done? && next.report.Issued? && next.report.invoice.id == "")
  {
    hide Issuing.RequestOf, Paths.PathOf, InvoiceDecodes, IdFor, HasKey;
    RequestKey(c);
    var key := Key(c.company, c.item.externalId);
    if !HasKey(r, key) {
      IdForNew(r, key, fate.id);
    }
  }
}
