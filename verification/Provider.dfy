/** What can happen to one request on its way, for a provider that is otherwise honest. */
module Fates {
  import opened Options
  import opened Wire

  /** No reply, or an error reply of any code and any body. */
  predicate IsFailedReply(r: Reply) {
    r.Response? ==> !(200 <= r.code < 300)
  }

  type FailedReply = r: Reply | IsFailedReply(r) witness NoResponse(OtherCause)

  /** A failure that a destroy takes for the absence of its webhook. */
  predicate ReadsAsMissing(r: Reply) {
    r.Response? && EffectiveStatus(r.code, r.body) == 404
  }

  /**
   * Cropped is an honest answer whose body is not read whole. Disrupted with applied set is the lost reply: the
   * request took effect, the caller sees a failure.
   */
  datatype Fate =
    | Honest
    | Cropped(kept: Kept)
    | Disrupted(applied: bool, reply: FailedReply, interrupt: Option<Cause>)

  function NextFate(fates: seq<Fate>): Fate {
    if fates == [] then Honest else fates[0]
  }

  function LaterFates(fates: seq<Fate>): seq<Fate> {
    if fates == [] then [] else fates[1..]
  }

  function Status(code: int): Reply {
    Response(code, "", None, Empty)
  }
}

/** The provider's webhook objects by id. GET may leave the stored secret out; PUT replaces the object. */
module WebhookStore {
  import opened Options
  import opened Json
  import opened Wire
  import opened Fates
  import opened Webhooks
  import opened Calls

  type Store = map<string, Fields>

  function View(f: Fields, hidesSecret: bool): Fields {
    if hidesSecret then f - {SECRET} else f
  }

  /** The stored webhook a request addresses. */
  function Addressed(store: Store, req: Request): Option<string> {
    match Paths.Route(req.path)
    case Some(Webhook(id)) => if id in store then Some(id) else None
    case _ => None
  }

  function Effect(store: Store, req: Request): Store {
    match Addressed(store, req)
    case None => store
    case Some(id) =>
      if req.verb == Put && req.body.Some? && DecodeDocument(req.body.value).Some? then
        store[id := DecodeDocument(req.body.value).value]
      else if req.verb == Wire.Delete then store - {id}
      else store
  }

  function Answer(store: Store, hidesSecret: bool, req: Request): Reply {
    match Addressed(store, req)
    case None => Status(404)
    case Some(id) =>
      match req.verb
      case Get => Response(200, "", None, Value(Envelope(View(store[id], hidesSecret))))
      case Post => Status(405)
      case _ => Status(204)
  }

  function Serve(store: Store, hidesSecret: bool, req: Request, fate: Fate): (Store, Attempt) {
    match fate
    case Honest => (Effect(store, req), Attempt(Answer(store, hidesSecret, req), None))
    case Cropped(kept) => (Effect(store, req), Attempt(CutReply(Answer(store, hidesSecret, req), kept), None))
    case Disrupted(applied, reply, interrupt) =>
      (if applied then Effect(store, req) else store, Attempt(reply, interrupt))
  }

  lemma RequestAddresses(store: Store, c: Call)
    requires c.Active?
    ensures Addressed(store, RequestOf(c)) == if TargetId(c.task) in store then Some(TargetId(c.task)) else None
  {
    WebhookPathRoutes(TargetId(c.task));
  }

  lemma EnvelopeDecodes(f: Fields)
    ensures DecodeDocument(Envelope(f)) == Some(f)
    ensures AcceptsDocument(Value(Envelope(f))) && DocumentOf(Value(Envelope(f))) == f
  {
  }

  /** The effect of a call's own request, without paths. */
  lemma RequestEffect(store: Store, c: Call)
    requires c.Active? && WellFormed(c)
    ensures var id := TargetId(c.task);
            Effect(store, RequestOf(c)) ==
              if id !in store then store
              else if c.phase.Writing? then store[id := c.phase.fields]
              else if c.phase.Deleting? then store - {id}
              else store
  {
    hide WebhookPath, DecodeDocument;
    RequestAddresses(store, c);
    if c.phase.Writing? {
      EnvelopeDecodes(c.phase.fields);
    }
  }

  /** What an honest answer makes of a call that asked. */
  lemma HonestResume(store: Store, hidesSecret: bool, c: Call, secret: string)
    requires c.Active? && WellFormed(c)
    ensures var id := TargetId(c.task);
            Resume(c, Attempt(Answer(store, hidesSecret, RequestOf(c)), None), secret) ==
              if id in store then
                (match c.phase
                 case Reading => AfterRead(c.task, View(store[id], hidesSecret), secret)
                 case Writing(_) => Active(c.task, Confirming, 1)
                 case Confirming => AfterConfirm(c.task, View(store[id], hidesSecret))
                 case Deleting => Done(Deleted(false)))
              else if c.phase.Deleting? then Done(Deleted(true))
              else Done(Refused(ProviderStatus(404)))
  {
    hide WebhookPath, DecodeDocument, AfterRead, AfterConfirm;
    RequestAddresses(store, c);
    var id := TargetId(c.task);
    if id in store {
      EnvelopeDecodes(View(store[id], hidesSecret));
    }
  }

  /** An answer that is not read whole: what the whole answer makes of the call, or a refusal. */
  lemma CroppedResume(store: Store, hidesSecret: bool, c: Call, kept: Kept, secret: string)
    requires c.Active? && WellFormed(c)
    ensures var whole := Answer(store, hidesSecret, RequestOf(c));
            var next := Resume(c, Attempt(CutReply(whole, kept), None), secret);
            next == Resume(c, Attempt(whole, None), secret) || (next.Done? && next.report.Refused?)
  {
    hide WebhookPath, DecodeDocument, InsecureSsl, DesiredFields, HeadersOf, SecretMatches;
    RequestAddresses(store, c);
  }

  /**
   * What a disruption makes of it: the same request again, or a refusal; a success only for a destroy that meets
   * an error of effective status 404.
   */
  lemma DisruptedResume(c: Call, reply: FailedReply, interrupt: Option<Cause>, secret: string)
    requires c.Active? && WellFormed(c)
    ensures var next := Resume(c, Attempt(reply, interrupt), secret);
            || (next.Done? && next.report.Refused?)
            || (c.attempt < MAX_ATTEMPTS && next == Active(c.task, c.phase, c.attempt + 1))
            || (c.phase.Deleting? && ReadsAsMissing(reply) && next == Done(Deleted(true)))
  {
    hide AfterRead, AfterConfirm;
  }
}
